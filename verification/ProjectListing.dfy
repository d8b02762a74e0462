/** ProjectRepository.list: the SQL the adapter builds, under bag semantics, against filtering,
    sorting and slicing the projects, which is what the in-memory fake does. */
module ProjectListing {
  import opened Wrappers
  import opened Paging
  import opened Projects
  import L = Like
  import S = Store

  datatype Technology = Technology(id: nat, name: string)

  datatype Database = Database(projects: seq<Project>, technologies: seq<Technology>, links: seq<S.Link>)

  datatype Filters = Filters(
    technology: Option<string>,
    featured: Option<bool>,
    status: Option<string>,
    search: Option<string>,
    byTitle: bool,
    page: nat,
    limit: nat)

  /** Primary keys, and the unique technology name. */
  ghost predicate Constraints(db: Database) {
    && (forall i, j :: 0 <= i < j < |db.projects| ==> db.projects[i].id != db.projects[j].id)
    && (forall i, j :: 0 <= i < j < |db.technologies| ==> db.technologies[i].id != db.technologies[j].id)
    && (forall i, j :: 0 <= i < j < |db.technologies| ==> db.technologies[i].name != db.technologies[j].name)
    && (forall i, j :: 0 <= i < j < |db.links| ==> db.links[i] != db.links[j])
  }

  // ---- FROM projects [JOIN project_technologies JOIN technologies] WHERE name = ... ----

  /** One joined row for each technology row that the link meets. */
  function JoinTechnology(p: Project, technology: nat, technologies: seq<Technology>, name: string): seq<Project> {
    if technologies == [] then []
    else
      (if technologies[0].id == technology && technologies[0].name == name then [p] else [])
      + JoinTechnology(p, technology, technologies[1..], name)
  }

  function JoinLinks(p: Project, links: seq<S.Link>, technologies: seq<Technology>, name: string): seq<Project> {
    if links == [] then []
    else
      (if links[0].project == p.id then JoinTechnology(p, links[0].technology, technologies, name) else [])
      + JoinLinks(p, links[1..], technologies, name)
  }

  function Join(projects: seq<Project>, db: Database, name: string): seq<Project> {
    if projects == [] then []
    else
      Join(projects[..|projects| - 1], db, name)
      + JoinLinks(projects[|projects| - 1], db.links, db.technologies, name)
  }

  function From(db: Database, f: Filters): seq<Project> {
    if f.technology.Some? then Join(db.projects, db, f.technology.value) else db.projects
  }

  /** The remaining conditions, except for the search. */
  predicate Plainly(f: Filters, publicOnly: bool, p: Project) {
    && (publicOnly ==> p.isPublic)
    && (f.featured.Some? ==> p.featured == f.featured.value)
    && (f.status.Some? ==> p.status == f.status.value)
  }

  predicate Where(f: Filters, publicOnly: bool, p: Project) {
    Plainly(f, publicOnly, p) && (f.search.Some? ==> L.SqlSearch(f.search.value, p.title))
  }

  /** scalars().unique() */
  function Unique(s: seq<Project>): seq<Project> {
    if s == [] then []
    else
      var rest := Unique(s[..|s| - 1]);
      if s[|s| - 1] in s[..|s| - 1] then rest else rest + [s[|s| - 1]]
  }

  /** The database may answer the query with `out`. */
  ghost predicate SqlAnswer(db: Database, f: Filters, publicOnly: bool, out: seq<Project>)
    requires 1 <= f.page && 1 <= f.limit
  {
    exists full ::
      && Ordering(f.byTitle, multiset(Filter(From(db, f), (p: Project) => Where(f, publicOnly, p))), full)
      && out == Unique(Page(full, f.page, f.limit))
  }

  // ---- the specification ----

  predicate LinkedTo(p: Project, l: S.Link, t: Technology, name: string) {
    l.project == p.id && l.technology == t.id && t.name == name
  }

  /** The project has a technology of this name. */
  predicate Uses(db: Database, p: Project, name: string) {
    exists l, t :: l in db.links && t in db.technologies && LinkedTo(p, l, t, name)
  }

  /** The projects that the filters ask for, the search being the database's. */
  predicate Sought(db: Database, f: Filters, publicOnly: bool, p: Project) {
    Where(f, publicOnly, p) && (f.technology.Some? ==> Uses(db, p, f.technology.value))
  }

  function SoughtRows(db: Database, f: Filters, publicOnly: bool): seq<Project> {
    Filter(db.projects, (p: Project) => Sought(db, f, publicOnly, p))
  }

  /** Filter the projects, sort them, take the page. */
  ghost predicate SpecAnswer(db: Database, f: Filters, publicOnly: bool, out: seq<Project>)
    requires 1 <= f.page && 1 <= f.limit
  {
    exists full ::
      && Ordering(f.byTitle, multiset(SoughtRows(db, f, publicOnly)), full)
      && out == Page(full, f.page, f.limit)
  }

  // ---- the join adds no duplicates ----

  lemma {:induction false} JoinTechnologyOnce(p: Project, technology: nat, technologies: seq<Technology>, name: string)
    requires forall i, j :: 0 <= i < j < |technologies| ==> technologies[i].id != technologies[j].id
    ensures JoinTechnology(p, technology, technologies, name)
         == if exists t :: t in technologies && t.id == technology && t.name == name then [p] else []
  {
    if technologies != [] {
      var first, rest := technologies[0], technologies[1..];
      JoinTechnologyOnce(p, technology, rest, name);
      assert forall t :: t in technologies <==> t == first || t in rest;
      assert first.id == technology ==> forall t :: t in rest ==> t.id != technology;
    }
  }

  /** Some link of the project leads to the technology of this name. */
  ghost predicate Reaches(p: Project, links: seq<S.Link>, technologies: seq<Technology>, name: string) {
    exists l, t :: l in links && t in technologies && LinkedTo(p, l, t, name)
  }

  ghost predicate UniqueTechnologies(technologies: seq<Technology>) {
    && (forall i, j :: 0 <= i < j < |technologies| ==> technologies[i].id != technologies[j].id)
    && (forall i, j :: 0 <= i < j < |technologies| ==> technologies[i].name != technologies[j].name)
  }

  lemma OneTechnologyPerName(technologies: seq<Technology>, t: Technology, u: Technology)
    requires UniqueTechnologies(technologies) && t in technologies && u in technologies && t.name == u.name
    ensures t == u
  {
  }

  /** The project's first link leads to the name, or a later one does, but not both. */
  lemma ReachesStep(p: Project, first: S.Link, rest: seq<S.Link>, technologies: seq<Technology>, name: string)
    requires UniqueTechnologies(technologies) && first !in rest
    ensures
      var here := exists t :: t in technologies && LinkedTo(p, first, t, name);
      && (Reaches(p, [first] + rest, technologies, name) <==> here || Reaches(p, rest, technologies, name))
      && !(here && Reaches(p, rest, technologies, name))
  {
    assert forall l :: l in [first] + rest <==> l == first || l in rest;
    if t :| t in technologies && LinkedTo(p, first, t, name) { FirstOnly(p, first, rest, technologies, t, name); }
  }

  lemma {:induction false} JoinLinksOnce(p: Project, links: seq<S.Link>, technologies: seq<Technology>, name: string)
    requires UniqueTechnologies(technologies)
    requires forall i, j :: 0 <= i < j < |links| ==> links[i] != links[j]
    ensures JoinLinks(p, links, technologies, name) == if Reaches(p, links, technologies, name) then [p] else []
  {
    if links != [] {
      var first, rest := links[0], links[1..];
      assert links == [first] + rest;
      JoinLinksOnce(p, rest, technologies, name);
      JoinTechnologyOnce(p, first.technology, technologies, name);
      ReachesStep(p, first, rest, technologies, name);
    }
  }

  lemma FirstOnly(p: Project, first: S.Link, rest: seq<S.Link>, technologies: seq<Technology>, t: Technology,
                  name: string)
    requires UniqueTechnologies(technologies) && t in technologies && LinkedTo(p, first, t, name)
    requires first !in rest
    ensures !Reaches(p, rest, technologies, name)
  {
    forall l, u | l in rest && u in technologies ensures !LinkedTo(p, l, u, name) {
      if LinkedTo(p, l, u, name) { OneTechnologyPerName(technologies, t, u); }
    }
  }

  /** Unique names and the association's primary key make the join a filter. */
  lemma {:induction false} JoinIsFilter(projects: seq<Project>, db: Database, name: string)
    requires Constraints(db)
    ensures Join(projects, db, name) == Filter(projects, (p: Project) => Uses(db, p, name))
  {
    if projects != [] {
      var last := projects[|projects| - 1];
      JoinIsFilter(projects[..|projects| - 1], db, name);
      JoinLinksOnce(last, db.links, db.technologies, name);
      assert Reaches(last, db.links, db.technologies, name) <==> Uses(db, last, name);
    }
  }

  /** The query's rows, before ordering, are the projects sought: none lost to the join, none twice. */
  lemma RowsAgree(db: Database, f: Filters, publicOnly: bool)
    requires Constraints(db)
    ensures Filter(From(db, f), (p: Project) => Where(f, publicOnly, p)) == SoughtRows(db, f, publicOnly)
  {
    var sought := (p: Project) => Sought(db, f, publicOnly, p);
    var where := (p: Project) => Where(f, publicOnly, p);
    if f.technology.Some? {
      var uses := (p: Project) => Uses(db, p, f.technology.value);
      JoinIsFilter(db.projects, db, f.technology.value);
      FilterTwice(db.projects, uses, where);
      FilterSame(db.projects, (p: Project) => uses(p) && where(p), sought);
    } else {
      FilterSame(db.projects, where, sought);
    }
  }

  lemma {:induction false} UniqueOfDistinct(s: seq<Project>)
    requires Distinct(s)
    ensures Unique(s) == s
  {
    if s != [] {
      UniqueOfDistinct(s[..|s| - 1]);
      assert s == s[..|s| - 1] + [s[|s| - 1]];
    }
  }

  lemma OrderDistinct(db: Database, f: Filters, publicOnly: bool, full: seq<Project>)
    requires Constraints(db) && Ordering(f.byTitle, multiset(SoughtRows(db, f, publicOnly)), full)
    ensures Distinct(full)
  {
    FilterDistinct(db.projects, (p: Project) => Sought(db, f, publicOnly, p));
    DistinctCounts(SoughtRows(db, f, publicOnly));
    DistinctCounts(full);
  }

  /** unique() is the identity: no order of the query's rows has a project twice. */
  lemma PageIsDistinct(db: Database, f: Filters, publicOnly: bool, full: seq<Project>)
    requires Constraints(db) && 1 <= f.page && 1 <= f.limit
    requires Ordering(f.byTitle, multiset(Filter(From(db, f), (p: Project) => Where(f, publicOnly, p))), full)
    ensures Unique(Page(full, f.page, f.limit)) == Page(full, f.page, f.limit)
  {
    RowsAgree(db, f, publicOnly);
    OrderDistinct(db, f, publicOnly, full);
    UniqueOfDistinct(Page(full, f.page, f.limit));
  }

  /** For every search term and whatever the ties, the database may give exactly the answers that
      filtering, sorting and slicing may give. */
  lemma ListIsFilterSortSlice(db: Database, f: Filters, publicOnly: bool, out: seq<Project>)
    requires Constraints(db) && 1 <= f.page && 1 <= f.limit
    ensures SqlAnswer(db, f, publicOnly, out) <==> SpecAnswer(db, f, publicOnly, out)
  {
    RowsAgree(db, f, publicOnly);
    var bag := multiset(SoughtRows(db, f, publicOnly));
    forall full | Ordering(f.byTitle, bag, full)
      ensures Unique(Page(full, f.page, f.limit)) == Page(full, f.page, f.limit)
    {
      PageIsDistinct(db, f, publicOnly, full);
    }
  }

  /** The database may answer the queries for page 1, page 2, and so on with these. */
  ghost predicate PageAnswers(db: Database, f: Filters, publicOnly: bool, outs: seq<seq<Project>>)
    requires 1 <= f.limit
  {
    forall k :: 0 <= k < |outs| ==> SqlAnswer(db, f.(page := k + 1), publicOnly, outs[k])
  }

  lemma SoughtOnEveryPage(db: Database, f: Filters, publicOnly: bool, page: nat)
    ensures SoughtRows(db, f.(page := page), publicOnly) == SoughtRows(db, f, publicOnly)
  {
    var g := f.(page := page);
    FilterSame(db.projects, (p: Project) => Sought(db, g, publicOnly, p), (p: Project) => Sought(db, f, publicOnly, p));
  }

  lemma AnswerIsPage(db: Database, f: Filters, publicOnly: bool, page: nat, out: seq<Project>)
    requires Constraints(db) && 1 <= page && 1 <= f.limit
    ensures SqlAnswer(db, f.(page := page), publicOnly, out)
       <==> PageOf(f.byTitle, multiset(SoughtRows(db, f, publicOnly)), page, f.limit, out)
  {
    ListIsFilterSortSlice(db, f.(page := page), publicOnly, out);
    SoughtOnEveryPage(db, f, publicOnly, page);
  }

  lemma AnswersAreChoices(db: Database, f: Filters, publicOnly: bool, outs: seq<seq<Project>>)
    requires Constraints(db) && 1 <= f.limit
    ensures PageAnswers(db, f, publicOnly, outs)
       <==> Choice(f.byTitle, multiset(SoughtRows(db, f, publicOnly)), f.limit, outs)
  {
    forall k | 0 <= k < |outs|
      ensures SqlAnswer(db, f.(page := k + 1), publicOnly, outs[k])
         <==> PageOf(f.byTitle, multiset(SoughtRows(db, f, publicOnly)), k + 1, f.limit, outs[k])
    {
      AnswerIsPage(db, f, publicOnly, k + 1, outs[k]);
    }
  }

  /** Reading page after page shows every project sought once, however the database breaks ties in each
      query, if and only if no two rows with equal keys stand on either side of the end of a page. */
  lemma PagesShowAllExactly(db: Database, f: Filters, publicOnly: bool, full: seq<Project>)
    requires Constraints(db) && 1 <= f.limit
    requires Ordering(f.byTitle, multiset(SoughtRows(db, f, publicOnly)), full)
    ensures (forall outs :: |outs| == |full| / f.limit + 1 && PageAnswers(db, f, publicOnly, outs) ==>
              multiset(Concat(outs)) == multiset(SoughtRows(db, f, publicOnly)))
       <==> Untied(f.byTitle, full, f.limit)
  {
    OrderDistinct(db, f, publicOnly, full);
    forall outs: seq<seq<Project>>
      ensures PageAnswers(db, f, publicOnly, outs) <==> Choice(f.byTitle, multiset(full), f.limit, outs)
    {
      AnswersAreChoices(db, f, publicOnly, outs);
    }
    Paging.PagesShowAllExactly(f.byTitle, full, f.limit);
  }

  /** If no keys tie, the pages together are the one sorted list of the projects sought. */
  lemma PagesShowAll(db: Database, f: Filters, publicOnly: bool, full: seq<Project>, outs: seq<seq<Project>>)
    requires Constraints(db) && 1 <= f.limit
    requires Ordering(f.byTitle, multiset(SoughtRows(db, f, publicOnly)), full)
    requires NoTies(f.byTitle, multiset(full))
    requires |outs| == |full| / f.limit + 1 && PageAnswers(db, f, publicOnly, outs)
    ensures Concat(outs) == full && Distinct(full)
  {
    OrderDistinct(db, f, publicOnly, full);
    AnswersAreChoices(db, f, publicOnly, outs);
    OneOrderShowsAll(f.byTitle, full, f.limit, outs);
    PagesCover(full, f.limit);
  }

  // ---- the in-memory fake ----

  ghost predicate Wanted(db: Database, f: Filters, publicOnly: bool, p: Project) {
    && Plainly(f, publicOnly, p)
    && (f.technology.Some? ==> Uses(db, p, f.technology.value))
    && (f.search.Some? ==> L.FakeSearch(f.search.value, p.title))
  }

  ghost function WantedRows(db: Database, f: Filters, publicOnly: bool): seq<Project> {
    Filter(db.projects, (p: Project) => Wanted(db, f, publicOnly, p))
  }

  /** Without special characters in the search, the fake wants what is sought. */
  lemma WantedIsSought(db: Database, f: Filters, publicOnly: bool)
    requires f.search.Some? ==> L.Plain(f.search.value)
    ensures WantedRows(db, f, publicOnly) == SoughtRows(db, f, publicOnly)
  {
    if f.search.Some? { L.SearchAgreesExactly(f.search.value); }
    FilterSame(db.projects, (p: Project) => Wanted(db, f, publicOnly, p), (p: Project) => Sought(db, f, publicOnly, p));
  }

  /** The stable sort of the wanted projects, sliced: one of the answers that are allowed. */
  ghost function FakeAnswer(db: Database, f: Filters, publicOnly: bool): seq<Project>
    requires 1 <= f.page && 1 <= f.limit
  {
    Page(StableSort(f.byTitle, WantedRows(db, f, publicOnly)), f.page, f.limit)
  }

  /** The fake's answer is always allowed, and if no two of the rows tie it is the only one. */
  lemma FakeAgrees(db: Database, f: Filters, publicOnly: bool, out: seq<Project>)
    requires Constraints(db) && 1 <= f.page && 1 <= f.limit
    requires f.search.Some? ==> L.Plain(f.search.value)
    ensures SqlAnswer(db, f, publicOnly, FakeAnswer(db, f, publicOnly))
    ensures NoTies(f.byTitle, multiset(WantedRows(db, f, publicOnly))) && SqlAnswer(db, f, publicOnly, out) ==>
              out == FakeAnswer(db, f, publicOnly)
  {
    var rows := WantedRows(db, f, publicOnly);
    var sorted := StableSort(f.byTitle, rows);
    StableSortSorts(f.byTitle, rows);
    WantedIsSought(db, f, publicOnly);
    assert Ordering(f.byTitle, multiset(rows), sorted);
    ListIsFilterSortSlice(db, f, publicOnly, FakeAnswer(db, f, publicOnly));
    ListIsFilterSortSlice(db, f, publicOnly, out);
    if NoTies(f.byTitle, multiset(rows)) && SpecAnswer(db, f, publicOnly, out) {
      var full :| Ordering(f.byTitle, multiset(rows), full) && out == Page(full, f.page, f.limit);
      SortedOnce(f.byTitle, sorted, full);
    }
  }

  /** The public catalogue is the public part of the admin catalogue, in the same order. */
  lemma PublicIsSubsequence(db: Database, f: Filters)
    ensures SoughtRows(db, f, true) == Filter(SoughtRows(db, f, false), (p: Project) => p.isPublic)
    ensures StableSort(f.byTitle, WantedRows(db, f, true))
         == Filter(StableSort(f.byTitle, WantedRows(db, f, false)), (p: Project) => p.isPublic)
  {
    var all := (p: Project) => Wanted(db, f, false, p);
    var public := (p: Project) => p.isPublic;
    FilterSort(f.byTitle, WantedRows(db, f, false), public);
    FilterTwice(db.projects, all, public);
    FilterSame(db.projects, (p: Project) => all(p) && public(p), (p: Project) => Wanted(db, f, true, p));
    var sought := (p: Project) => Sought(db, f, false, p);
    FilterTwice(db.projects, sought, public);
    FilterSame(db.projects, (p: Project) => sought(p) && public(p), (p: Project) => Sought(db, f, true, p));
  }

  // ---- what a listing shows, on the columns ----

  /** The filters ask for this row: the search by letters, the technology through a link. */
  ghost predicate AskedFor(db: Database, f: Filters, publicOnly: bool, p: Project) {
    && p in db.projects
    && (publicOnly ==> p.isPublic)
    && (f.featured == None || f.featured == Some(p.featured))
    && (f.status == None || f.status == Some(p.status))
    && (f.technology.Some? ==>
          exists x :: Technology(x, f.technology.value) in db.technologies && S.Link(p.id, x) in db.links)
    && (f.search.Some? ==> exists k: nat :: L.ReadsAt(p.title, f.search.value, k))
  }

  lemma UsesByLink(db: Database, p: Project, name: string)
    ensures Uses(db, p, name) <==> exists x :: Technology(x, name) in db.technologies && S.Link(p.id, x) in db.links
  {
    if l, t :| l in db.links && t in db.technologies && LinkedTo(p, l, t, name) {
      assert Technology(t.id, name) == t && S.Link(p.id, t.id) == l;
    }
    if x :| Technology(x, name) in db.technologies && S.Link(p.id, x) in db.links {
      assert LinkedTo(p, S.Link(p.id, x), Technology(x, name), name);
    }
  }

  /** The fake's rows are those that are asked for; so are the query's, if the search is plain. */
  lemma RowsAskedFor(db: Database, f: Filters, publicOnly: bool, p: Project)
    ensures p in WantedRows(db, f, publicOnly) <==> AskedFor(db, f, publicOnly, p)
    ensures (f.search.Some? ==> L.Plain(f.search.value)) ==>
              (p in SoughtRows(db, f, publicOnly) <==> AskedFor(db, f, publicOnly, p))
  {
    FilterMembers(db.projects, (p: Project) => Wanted(db, f, publicOnly, p));
    FilterMembers(db.projects, (p: Project) => Sought(db, f, publicOnly, p));
    if f.technology.Some? { UsesByLink(db, p, f.technology.value); }
    if f.search.Some? { L.SearchExactly(f.search.value, p.title); }
  }

  /** At most `limit` rows, only those asked for, in order; and the first page leaves out one only for `limit`
      others that do not come after it. */
  ghost predicate Shows(db: Database, f: Filters, publicOnly: bool, out: seq<Project>) {
    && InOrder(f.byTitle, out) && |out| <= f.limit
    && (forall p :: p in out ==> AskedFor(db, f, publicOnly, p))
    && (f.page == 1 ==> forall p :: AskedFor(db, f, publicOnly, p) && p !in out ==>
          |out| == f.limit && forall q :: q in out ==> NotAfter(f.byTitle, q, p))
  }

  lemma PageShows(db: Database, f: Filters, publicOnly: bool, rows: seq<Project>, full: seq<Project>)
    requires 1 <= f.page && 1 <= f.limit && Ordering(f.byTitle, multiset(rows), full)
    requires forall p :: p in rows <==> AskedFor(db, f, publicOnly, p)
    ensures Shows(db, f, publicOnly, Page(full, f.page, f.limit))
  {
    PageInOrder(f.byTitle, full, f.page, f.limit);
    forall p ensures p in full <==> p in rows { assert p in multiset(full) <==> p in multiset(rows); }
    if f.page == 1 {
      forall p | AskedFor(db, f, publicOnly, p) && p !in Page(full, 1, f.limit)
        ensures |Page(full, 1, f.limit)| == f.limit
        ensures forall q :: q in Page(full, 1, f.limit) ==> NotAfter(f.byTitle, q, p)
      {
        FirstPage(f.byTitle, full, f.limit, p);
      }
    }
  }

  /** Whatever the database answers shows the rows asked for in the order asked for. */
  lemma AnswerShows(db: Database, f: Filters, publicOnly: bool, out: seq<Project>)
    requires Constraints(db) && 1 <= f.page && 1 <= f.limit && SqlAnswer(db, f, publicOnly, out)
    requires f.search.Some? ==> L.Plain(f.search.value)
    ensures Shows(db, f, publicOnly, out)
  {
    ListIsFilterSortSlice(db, f, publicOnly, out);
    var rows := SoughtRows(db, f, publicOnly);
    var full :| Ordering(f.byTitle, multiset(rows), full) && out == Page(full, f.page, f.limit);
    forall p ensures p in rows <==> AskedFor(db, f, publicOnly, p) { RowsAskedFor(db, f, publicOnly, p); }
    PageShows(db, f, publicOnly, rows, full);
  }

  /** For every search: only stored rows, and to visitors only public ones. */
  lemma AnswerIsStored(db: Database, f: Filters, publicOnly: bool, out: seq<Project>)
    requires Constraints(db) && 1 <= f.page && 1 <= f.limit && SqlAnswer(db, f, publicOnly, out)
    ensures InOrder(f.byTitle, out)
    ensures forall p :: p in out ==> p in db.projects && (publicOnly ==> p.isPublic)
  {
    ListIsFilterSortSlice(db, f, publicOnly, out);
    var rows := SoughtRows(db, f, publicOnly);
    var full :| Ordering(f.byTitle, multiset(rows), full) && out == Page(full, f.page, f.limit);
    FilterMembers(db.projects, (p: Project) => Sought(db, f, publicOnly, p));
    PageInOrder(f.byTitle, full, f.page, f.limit);
    forall p | p in out ensures p in rows { assert p in multiset(full); }
  }

  lemma FakeShows(db: Database, f: Filters, publicOnly: bool)
    requires 1 <= f.page && 1 <= f.limit
    ensures Shows(db, f, publicOnly, FakeAnswer(db, f, publicOnly))
  {
    var rows := WantedRows(db, f, publicOnly);
    StableSortSorts(f.byTitle, rows);
    forall p ensures p in rows <==> AskedFor(db, f, publicOnly, p) { RowsAskedFor(db, f, publicOnly, p); }
    PageShows(db, f, publicOnly, rows, StableSort(f.byTitle, rows));
  }

  /** One project to a page: the one shown first is no younger than any other that is asked for. */
  lemma OldestFirst(db: Database, f: Filters, publicOnly: bool, out: seq<Project>, p: Project)
    requires Constraints(db) && f.page == 1 && f.limit == 1 && !f.byTitle && SqlAnswer(db, f, publicOnly, out)
    requires (f.search.Some? ==> L.Plain(f.search.value)) && AskedFor(db, f, publicOnly, p)
    ensures |out| == 1 && AskedFor(db, f, publicOnly, out[0]) && out[0].created <= p.created
  {
    AnswerShows(db, f, publicOnly, out);
    assert out != [] && out[0] in out;
    assert p in out ==> p == out[0];
  }

  /** A project together with the names of its technologies, as the fake stores it. */
  datatype Entry = Entry(project: Project, technologies: seq<string>)

  function Select(entries: seq<Entry>, keep: Entry -> bool): seq<Entry> {
    if entries == [] then []
    else
      var rest := Select(entries[..|entries| - 1], keep);
      if keep(entries[|entries| - 1]) then rest + [entries[|entries| - 1]] else rest
  }

  function ProjectsOf(entries: seq<Entry>): seq<Project> {
    seq(|entries|, i requires 0 <= i < |entries| => entries[i].project)
  }

  lemma {:induction false} SelectFilters(entries: seq<Entry>, keep: Entry -> bool, kept: Project -> bool)
    requires forall e :: e in entries ==> keep(e) == kept(e.project)
    ensures ProjectsOf(Select(entries, keep)) == Filter(ProjectsOf(entries), kept)
    ensures forall e :: e in Select(entries, keep) ==> e in entries
  {
    if entries != [] {
      var front, last := entries[..|entries| - 1], entries[|entries| - 1];
      SelectFilters(front, keep, kept);
      assert ProjectsOf(entries)[..|entries| - 1] == ProjectsOf(front);
    }
  }

  /** The fake holds the same projects as the database, with the same technologies. */
  ghost predicate Mirrors(entries: seq<Entry>, db: Database) {
    && ProjectsOf(entries) == db.projects
    && forall e, name :: e in entries ==> (name in e.technologies <==> Uses(db, e.project, name))
  }

  function InsertEntry(byTitle: bool, s: seq<Entry>, e: Entry): seq<Entry> {
    if s == [] || KeyLeq(byTitle, s[|s| - 1].project, e.project) then s + [e]
    else InsertEntry(byTitle, s[..|s| - 1], e) + [s[|s| - 1]]
  }

  /** list.sort: stable, like the sort of the projects alone. */
  function SortEntries(byTitle: bool, s: seq<Entry>): seq<Entry> {
    if s == [] then [] else InsertEntry(byTitle, SortEntries(byTitle, s[..|s| - 1]), s[|s| - 1])
  }

  lemma ProjectsOfAppend(s: seq<Entry>, e: Entry)
    ensures ProjectsOf(s + [e]) == ProjectsOf(s) + [e.project]
  {
  }

  lemma {:induction false} InsertEntryProjects(byTitle: bool, s: seq<Entry>, e: Entry)
    ensures ProjectsOf(InsertEntry(byTitle, s, e)) == Insert(byTitle, ProjectsOf(s), e.project)
  {
    if s == [] || KeyLeq(byTitle, s[|s| - 1].project, e.project) {
      ProjectsOfAppend(s, e);
    } else {
      var front, last := s[..|s| - 1], s[|s| - 1];
      InsertEntryProjects(byTitle, front, e);
      ProjectsOfAppend(InsertEntry(byTitle, front, e), last);
      assert ProjectsOf(s)[..|s| - 1] == ProjectsOf(front);
    }
  }

  lemma {:induction false} SortEntriesProjects(byTitle: bool, s: seq<Entry>)
    ensures ProjectsOf(SortEntries(byTitle, s)) == StableSort(byTitle, ProjectsOf(s))
  {
    if s != [] {
      var front := s[..|s| - 1];
      SortEntriesProjects(byTitle, front);
      InsertEntryProjects(byTitle, SortEntries(byTitle, front), s[|s| - 1]);
      assert ProjectsOf(s)[..|s| - 1] == ProjectsOf(front);
    }
  }

  class InMemoryProjectRepository {
    var entries: seq<Entry>

    constructor (seed: seq<Entry>)
      ensures entries == seed
    {
      entries := seed;
    }

    /** The first filters, on visibility and technology. */
    method Offered(f: Filters, publicOnly: bool, ghost db: Database) returns (rows: seq<Entry>)
      requires Mirrors(entries, db)
      ensures ProjectsOf(rows) == Filter(db.projects, (p: Project) => Offers(db, f, publicOnly, p))
    {
      rows := entries;
      ghost var wanted := (p: Project) => true;
      FilterAll(db.projects, wanted);
      if publicOnly {
        rows, wanted := Narrow(rows, (e: Entry) => e.project.isPublic, db.projects, wanted,
                               (p: Project) => p.isPublic);
      }
      if f.technology.Some? {
        rows, wanted := Narrow(rows, (e: Entry) => f.technology.value in e.technologies, db.projects, wanted,
                               (p: Project) => Uses(db, p, f.technology.value));
      }
      FilterSame(db.projects, wanted, (p: Project) => Offers(db, f, publicOnly, p));
    }

    /** Filter, sort and slice. */
    method List(f: Filters, publicOnly: bool, ghost db: Database) returns (page: seq<Entry>)
      requires 1 <= f.page && 1 <= f.limit && Mirrors(entries, db)
      ensures ProjectsOf(page) == FakeAnswer(db, f, publicOnly)
      ensures Shows(db, f, publicOnly, ProjectsOf(page))
    {
      FakeShows(db, f, publicOnly);
      var offered := Offered(f, publicOnly, db);
      var rows := Matching(offered, f);
      OffersAndPicks(db, f, publicOnly);
      SortEntriesProjects(f.byTitle, rows);
      page := Slice(SortEntries(f.byTitle, rows), f.page, f.limit);
    }
  }

  ghost predicate Offers(db: Database, f: Filters, publicOnly: bool, p: Project) {
    (publicOnly ==> p.isPublic) && (f.technology.Some? ==> Uses(db, p, f.technology.value))
  }

  predicate Picks(f: Filters, p: Project) {
    Plainly(f, false, p) && (f.search.Some? ==> L.FakeSearch(f.search.value, p.title))
  }

  lemma OffersAndPicks(db: Database, f: Filters, publicOnly: bool)
    ensures Filter(Filter(db.projects, (p: Project) => Offers(db, f, publicOnly, p)), (p: Project) => Picks(f, p))
         == WantedRows(db, f, publicOnly)
  {
    var offers, picks := (p: Project) => Offers(db, f, publicOnly, p), (p: Project) => Picks(f, p);
    FilterTwice(db.projects, offers, picks);
    FilterSame(db.projects, (p: Project) => offers(p) && picks(p), (p: Project) => Wanted(db, f, publicOnly, p));
  }

  /** The remaining filters, on the project's own columns. */
  method Matching(offered: seq<Entry>, f: Filters) returns (rows: seq<Entry>)
    ensures ProjectsOf(rows) == Filter(ProjectsOf(offered), (p: Project) => Picks(f, p))
  {
    rows := offered;
    ghost var all := ProjectsOf(offered);
    ghost var wanted := (p: Project) => true;
    FilterAll(all, wanted);
    if f.featured.Some? {
      rows, wanted := Narrow(rows, (e: Entry) => e.project.featured == f.featured.value, all, wanted,
                             (p: Project) => p.featured == f.featured.value);
    }
    if f.status.Some? {
      rows, wanted := Narrow(rows, (e: Entry) => e.project.status == f.status.value, all, wanted,
                             (p: Project) => p.status == f.status.value);
    }
    if f.search.Some? {
      rows, wanted := Narrow(rows, (e: Entry) => L.FakeSearch(f.search.value, e.project.title), all, wanted,
                             (p: Project) => L.FakeSearch(f.search.value, p.title));
    }
    FilterSame(all, wanted, (p: Project) => Picks(f, p));
  }

  method SliceFrom(rows: seq<Entry>, start: nat, limit: nat) returns (slice: seq<Entry>)
    ensures ProjectsOf(slice) == ProjectsOf(rows)[Min(start, |rows|)..Min(start + limit, |rows|)]
  {
    slice := rows[Min(start, |rows|)..Min(start + limit, |rows|)];
  }

  method Slice(rows: seq<Entry>, page: nat, limit: nat) returns (slice: seq<Entry>)
    requires 1 <= page && 1 <= limit
    ensures ProjectsOf(slice) == Page(ProjectsOf(rows), page, limit)
  {
    slice := SliceFrom(rows, Offset(page, limit), limit);
  }

  /** One more condition on the rows: a list comprehension. */
  method Narrow(rows: seq<Entry>, keep: Entry -> bool, ghost all: seq<Project>,
                ghost wanted: Project -> bool, ghost kept: Project -> bool)
    returns (rows': seq<Entry>, ghost wanted': Project -> bool)
    requires ProjectsOf(rows) == Filter(all, wanted)
    requires forall e :: e in rows ==> keep(e) == kept(e.project)
    ensures ProjectsOf(rows') == Filter(ProjectsOf(rows), kept) && forall e :: e in rows' ==> e in rows
    ensures forall p :: wanted'(p) <==> wanted(p) && kept(p)
    ensures ProjectsOf(rows') == Filter(all, wanted')
  {
    SelectFilters(rows, keep, kept);
    FilterTwice(all, wanted, kept);
    return Select(rows, keep), (p: Project) => wanted(p) && kept(p);
  }
}
