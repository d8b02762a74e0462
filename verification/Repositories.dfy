/** The SQL repositories and the use cases over them: each method reads, edits its session and
    commits, and is proved against Store's answers. A row that is not found (None or False in a
    repository) is the NotFound that the use case raises for it. */
module Repositories {
  import opened Wrappers
  import opened Store

  datatype DatabaseAnswer = Committed | CheckViolated | IntegrityViolated

  /** MySQL reports a violated CHECK constraint as an OperationalError, and the others as IntegrityErrors. */
  function Judge(t: Tables): (answer: DatabaseAnswer)
    ensures answer == Committed <==> Integrity(t)
  {
    if !Dated(t.articles) then CheckViolated else if Integrity(t) then Committed else IntegrityViolated
  }

  /** What the caller is told inside a block that turns IntegrityErrors into conflicts. */
  function Translated(answer: DatabaseAnswer): Outcome {
    match answer
    case Committed => Done
    case CheckViolated => OperationalError
    case IntegrityViolated => Conflict
  }

  /** And outside such a block. */
  function Escaping(answer: DatabaseAnswer): Outcome {
    match answer
    case Committed => Done
    case CheckViolated => OperationalError
    case IntegrityViolated => IntegrityError
  }

  class Database {
    var tables: Tables

    constructor (initial: Tables)
      ensures tables == initial
    {
      tables := initial;
    }

    /** The database checks its constraints; a refused commit changes nothing. */
    method Commit(pending: Tables) returns (answer: DatabaseAnswer)
      modifies this
      ensures answer == Judge(pending)
      ensures tables == if answer == Committed then pending else old(tables)
    {
      answer := Judge(pending);
      if answer == Committed { tables := pending; }
    }
  }

  datatype Lookup = Row(id: Id) | NoRow | MultipleResultsFound

  lemma OnlyOne(found: set<Id>, p: Id)
    requires p in found && |found| <= 1
    ensures found == {p}
  {
    assert |found - {p}| == 0;
  }

  class ProjectRepository {
    const db: Database

    constructor (db: Database)
      ensures this.db == db
    {
      this.db := db;
    }

    method GetTechnologies(uses: seq<Id>) returns (known: set<Id>)
      ensures known == Known(uses, db.tables.technologies)
    {
      if uses == [] { return {}; }
      known := set x | x in db.tables.technologies && x in uses;
    }

    method GetBySlug(slug: string, publicOnly: bool) returns (r: Lookup)
      requires Integrity(db.tables)
      ensures r != MultipleResultsFound
      ensures forall p :: r == Row(p) <==> p in BySlug(db.tables, slug, publicOnly)
    {
      OneRowPerSlug(db.tables, slug, publicOnly);
      var found := set p | p in db.tables.projects && db.tables.projects[p].slug == slug;
      if publicOnly { found := set p | p in found && db.tables.projects[p].isPublic; }
      assert found == BySlug(db.tables, slug, publicOnly);
      if found == {} { return NoRow; }
      if |found| > 1 { return MultipleResultsFound; }
      var p :| p in found;
      OnlyOne(found, p);
      return Row(p);
    }

    method Create(id: Id, slug: string, isPublic: bool, uses: seq<Id>) returns (r: Outcome)
      requires Integrity(db.tables) && Fresh(CreateProject(id, slug, isPublic, uses), db.tables)
      modifies db
      ensures r == Answer(CreateProject(id, slug, isPublic, uses), old(db.tables))
      ensures db.tables == After(CreateProject(id, slug, isPublic, uses), old(db.tables))
    {
      DoneIsCommitted(CreateProject(id, slug, isPublic, uses), db.tables);
      var technologies := GetTechnologies(uses);
      var model := Project(slug, isPublic, None);
      var pending := db.tables.(
        projects := db.tables.projects[id := model],
        links := db.tables.links + OwnLinks(id, technologies));
      var answer := db.Commit(pending);
      return Translated(answer);
    }

    /** The query for the technologies flushes the columns first, and its error is not translated. */
    method Update(id: Id, slug: string, isPublic: bool, uses: seq<Id>) returns (r: Outcome)
      requires Integrity(db.tables)
      modifies db
      ensures r == Answer(UpdateProject(id, slug, isPublic, uses), old(db.tables))
      ensures db.tables == After(UpdateProject(id, slug, isPublic, uses), old(db.tables))
    {
      DoneIsCommitted(UpdateProject(id, slug, isPublic, uses), db.tables);
      if id !in db.tables.projects { return NotFound(AProject); }
      var model := db.tables.projects[id].(slug := slug, isPublic := isPublic);
      var flushed := db.tables.(projects := db.tables.projects[id := model]);
      FlushDecides(db.tables, id, slug, isPublic, uses);
      if uses != [] && Judge(flushed) != Committed { return Escaping(Judge(flushed)); }
      var technologies := GetTechnologies(uses);
      var pending := flushed.(links := db.tables.links - LinksOf(db.tables, id) + OwnLinks(id, technologies));
      var answer := db.Commit(pending);
      return Translated(answer);
    }

    method Delete(id: Id) returns (r: Outcome)
      requires Integrity(db.tables)
      modifies db
      ensures r == Answer(DeleteProject(id), old(db.tables))
      ensures db.tables == After(DeleteProject(id), old(db.tables))
    {
      DoneIsCommitted(DeleteProject(id), db.tables);
      if id !in db.tables.projects { return NotFound(AProject); }
      var pending := db.tables.(
        projects := db.tables.projects - {id}, links := db.tables.links - LinksOf(db.tables, id));
      var answer := db.Commit(pending);
      return Translated(answer);
    }
  }

  /** The columns alone decide whether the database accepts an update. */
  lemma FlushDecides(t: Tables, id: Id, slug: string, isPublic: bool, uses: seq<Id>)
    requires Integrity(t) && id in t.projects
    ensures
      var flushed := t.(projects := t.projects[id := t.projects[id].(slug := slug, isPublic := isPublic)]);
      Integrity(flushed) <==> Integrity(Pending(UpdateProject(id, slug, isPublic, uses), t))
  {
    var p := t.projects[id].(slug := slug, isPublic := isPublic);
    ProjectSaves(t, UpdateProject(id, slug, isPublic, uses));
    SlugCommits(t, id, p);
    assert LinkKeys(t.links, t.projects[id := p], t.technologies);
    assert ProjectKeys(t.projects[id := p], t.clients);
    assert StudyKeys(t.studies, t.projects[id := p]);
    assert TestimonialKeys(t.testimonials, t.clients, t.projects[id := p]);
  }

  lemma ArticleFlushDecides(t: Tables, id: Id, article: Article, uses: seq<Id>)
    requires Integrity(t) && id in t.articles
    ensures
      var flushed := t.(articles := t.articles[id := article]);
      Integrity(flushed) <==> Integrity(Pending(UpdateArticle(id, article, uses), t))
  {
    ArticleSaves(t, UpdateArticle(id, article, uses));
    ArticleSlugCommits(t, id, article);
    var next := t.articles[id := article];
    assert MentionKeys(t.mentions, next, t.technologies);
    assert Dated(next) <==> Consistent(article) by {
      if Dated(next) { assert Consistent(next[id]); }
    }
  }

  class ClientRepository {
    const db: Database

    constructor (db: Database)
      ensures this.db == db
    {
      this.db := db;
    }

    method Create(id: Id, name: string) returns (r: Outcome)
      requires Integrity(db.tables) && Fresh(CreateClient(id, name), db.tables)
      modifies db
      ensures r == Answer(CreateClient(id, name), old(db.tables))
      ensures db.tables == After(CreateClient(id, name), old(db.tables))
    {
      DoneIsCommitted(CreateClient(id, name), db.tables);
      var answer := db.Commit(db.tables.(clients := db.tables.clients[id := name]));
      return Escaping(answer);
    }

    method Update(id: Id, name: string) returns (r: Outcome)
      requires Integrity(db.tables)
      modifies db
      ensures r == Answer(UpdateClient(id, name), old(db.tables))
      ensures db.tables == After(UpdateClient(id, name), old(db.tables))
    {
      DoneIsCommitted(UpdateClient(id, name), db.tables);
      if id !in db.tables.clients { return NotFound(AClient); }
      var answer := db.Commit(db.tables.(clients := db.tables.clients[id := name]));
      return Escaping(answer);
    }

    method Delete(id: Id) returns (r: Outcome)
      requires Integrity(db.tables)
      modifies db
      ensures r == Answer(DeleteClient(id), old(db.tables))
      ensures db.tables == After(DeleteClient(id), old(db.tables))
    {
      DoneIsCommitted(DeleteClient(id), db.tables);
      if id !in db.tables.clients { return NotFound(AClient); }
      var answer := db.Commit(db.tables.(clients := db.tables.clients - {id}));
      return Translated(answer);
    }
  }

  class TechnologyRepository {
    const db: Database

    constructor (db: Database)
      ensures this.db == db
    {
      this.db := db;
    }

    method Create(id: Id, name: string) returns (r: Outcome)
      requires Integrity(db.tables) && Fresh(CreateTechnology(id, name), db.tables)
      modifies db
      ensures r == Answer(CreateTechnology(id, name), old(db.tables))
      ensures db.tables == After(CreateTechnology(id, name), old(db.tables))
    {
      DoneIsCommitted(CreateTechnology(id, name), db.tables);
      var answer := db.Commit(db.tables.(technologies := db.tables.technologies[id := name]));
      return Escaping(answer);
    }

    method Update(id: Id, name: string) returns (r: Outcome)
      requires Integrity(db.tables)
      modifies db
      ensures r == Answer(UpdateTechnology(id, name), old(db.tables))
      ensures db.tables == After(UpdateTechnology(id, name), old(db.tables))
    {
      DoneIsCommitted(UpdateTechnology(id, name), db.tables);
      if id !in db.tables.technologies { return NotFound(ATechnology); }
      var answer := db.Commit(db.tables.(technologies := db.tables.technologies[id := name]));
      return Escaping(answer);
    }

    method Delete(id: Id) returns (r: Outcome)
      requires Integrity(db.tables)
      modifies db
      ensures r == Answer(DeleteTechnology(id), old(db.tables))
      ensures db.tables == After(DeleteTechnology(id), old(db.tables))
    {
      DoneIsCommitted(DeleteTechnology(id), db.tables);
      if id !in db.tables.technologies { return NotFound(ATechnology); }
      var pending := db.tables.(
        technologies := db.tables.technologies - {id},
        links := db.tables.links - LinksTo(db.tables, id),
        mentions := db.tables.mentions - MentionsTo(db.tables, id));
      var answer := db.Commit(pending);
      return Escaping(answer);
    }
  }

  class CaseStudyRepository {
    const db: Database

    constructor (db: Database)
      ensures this.db == db
    {
      this.db := db;
    }

    /** No check of its own: the foreign key decides. */
    method Create(id: Id, project: Id) returns (r: Outcome)
      requires Integrity(db.tables)
      modifies db
      ensures r == if project in old(db.tables).projects then Done else IntegrityError
      ensures db.tables == if r == Done then Pending(CreateStudy(id, project), old(db.tables)) else old(db.tables)
    {
      StudySaves(db.tables, id, project);
      var answer := db.Commit(db.tables.(studies := db.tables.studies[id := project]));
      return Escaping(answer);
    }

    method Update(id: Id, project: Id) returns (r: Outcome)
      requires Integrity(db.tables)
      modifies db
      ensures r == if id !in old(db.tables).studies then NotFound(ACaseStudy)
                   else if project in old(db.tables).projects then Done else IntegrityError
      ensures db.tables == if r == Done then Pending(UpdateStudy(id, project), old(db.tables)) else old(db.tables)
    {
      if id !in db.tables.studies { return NotFound(ACaseStudy); }
      StudySaves(db.tables, id, project);
      var answer := db.Commit(db.tables.(studies := db.tables.studies[id := project]));
      return Escaping(answer);
    }

    method Delete(id: Id) returns (r: Outcome)
      requires Integrity(db.tables)
      modifies db
      ensures r == Answer(DeleteStudy(id), old(db.tables))
      ensures db.tables == After(DeleteStudy(id), old(db.tables))
    {
      DoneIsCommitted(DeleteStudy(id), db.tables);
      if id !in db.tables.studies { return NotFound(ACaseStudy); }
      var answer := db.Commit(db.tables.(studies := db.tables.studies - {id}));
      return Escaping(answer);
    }
  }

  class TestimonialRepository {
    const db: Database

    constructor (db: Database)
      ensures this.db == db
    {
      this.db := db;
    }

    /** No check of its own: the foreign keys decide. */
    method Create(id: Id, said: Testimonial) returns (r: Outcome)
      requires Integrity(db.tables)
      modifies db
      ensures r == if Validated(said, old(db.tables)) == Done then Done else IntegrityError
      ensures db.tables == if r == Done then Pending(CreateTestimonial(id, said), old(db.tables)) else old(db.tables)
    {
      TestimonialSaves(db.tables, id, said);
      var answer := db.Commit(db.tables.(testimonials := db.tables.testimonials[id := said]));
      return Escaping(answer);
    }

    method Update(id: Id, said: Testimonial) returns (r: Outcome)
      requires Integrity(db.tables)
      modifies db
      ensures r == if id !in old(db.tables).testimonials then NotFound(ATestimonial)
                   else if Validated(said, old(db.tables)) == Done then Done else IntegrityError
      ensures db.tables == if r == Done then Pending(UpdateTestimonial(id, said), old(db.tables)) else old(db.tables)
    {
      if id !in db.tables.testimonials { return NotFound(ATestimonial); }
      TestimonialSaves(db.tables, id, said);
      var answer := db.Commit(db.tables.(testimonials := db.tables.testimonials[id := said]));
      return Escaping(answer);
    }

    method Delete(id: Id) returns (r: Outcome)
      requires Integrity(db.tables)
      modifies db
      ensures r == Answer(DeleteTestimonial(id), old(db.tables))
      ensures db.tables == After(DeleteTestimonial(id), old(db.tables))
    {
      DoneIsCommitted(DeleteTestimonial(id), db.tables);
      if id !in db.tables.testimonials { return NotFound(ATestimonial); }
      var answer := db.Commit(db.tables.(testimonials := db.tables.testimonials - {id}));
      return Escaping(answer);
    }
  }

  class ArticleRepository {
    const db: Database

    constructor (db: Database)
      ensures this.db == db
    {
      this.db := db;
    }

    /** A slug in use is a conflict; a published article without a date is the database's error. */
    method Create(id: Id, article: Article, uses: seq<Id>) returns (r: Outcome)
      requires Integrity(db.tables) && Fresh(CreateArticle(id, article, uses), db.tables)
      modifies db
      ensures r == Answer(CreateArticle(id, article, uses), old(db.tables))
      ensures db.tables == After(CreateArticle(id, article, uses), old(db.tables))
    {
      DoneIsCommitted(CreateArticle(id, article, uses), db.tables);
      var technologies := Known(uses, db.tables.technologies);
      var pending := db.tables.(
        articles := db.tables.articles[id := article],
        mentions := db.tables.mentions + OwnMentions(id, technologies));
      var answer := db.Commit(pending);
      return Translated(answer);
    }

    method Update(id: Id, article: Article, uses: seq<Id>) returns (r: Outcome)
      requires Integrity(db.tables)
      modifies db
      ensures r == Answer(UpdateArticle(id, article, uses), old(db.tables))
      ensures db.tables == After(UpdateArticle(id, article, uses), old(db.tables))
    {
      DoneIsCommitted(UpdateArticle(id, article, uses), db.tables);
      if id !in db.tables.articles { return NotFound(AnArticle); }
      var flushed := db.tables.(articles := db.tables.articles[id := article]);
      ArticleFlushDecides(db.tables, id, article, uses);
      if uses != [] && Judge(flushed) != Committed { return Escaping(Judge(flushed)); }
      var technologies := Known(uses, db.tables.technologies);
      var pending := flushed.(
        mentions := db.tables.mentions - MentionsOf(db.tables, id) + OwnMentions(id, technologies));
      var answer := db.Commit(pending);
      return Translated(answer);
    }

    method Delete(id: Id) returns (r: Outcome)
      requires Integrity(db.tables)
      modifies db
      ensures r == Answer(DeleteArticle(id), old(db.tables))
      ensures db.tables == After(DeleteArticle(id), old(db.tables))
    {
      DoneIsCommitted(DeleteArticle(id), db.tables);
      if id !in db.tables.articles { return NotFound(AnArticle); }
      var pending := db.tables.(
        articles := db.tables.articles - {id}, mentions := db.tables.mentions - MentionsOf(db.tables, id));
      var answer := db.Commit(pending);
      return Escaping(answer);
    }
  }

  // ---- the use cases that check references first ----

  method CreateCaseStudy(repository: CaseStudyRepository, projects: ProjectRepository, id: Id, project: Id)
    returns (r: Outcome)
    requires repository.db == projects.db
    requires Integrity(repository.db.tables) && Fresh(CreateStudy(id, project), repository.db.tables)
    modifies repository.db
    ensures r == Answer(CreateStudy(id, project), old(repository.db.tables))
    ensures repository.db.tables == After(CreateStudy(id, project), old(repository.db.tables))
  {
    if project !in projects.db.tables.projects { return NotFound(AProject); }
    r := repository.Create(id, project);
  }

  method UpdateCaseStudy(repository: CaseStudyRepository, projects: ProjectRepository, id: Id, project: Id)
    returns (r: Outcome)
    requires repository.db == projects.db && Integrity(repository.db.tables)
    modifies repository.db
    ensures r == Answer(UpdateStudy(id, project), old(repository.db.tables))
    ensures repository.db.tables == After(UpdateStudy(id, project), old(repository.db.tables))
  {
    if id !in repository.db.tables.studies { return NotFound(ACaseStudy); }
    if project !in projects.db.tables.projects { return NotFound(AProject); }
    r := repository.Update(id, project);
  }

  method ValidateReferences(said: Testimonial, clients: ClientRepository, projects: ProjectRepository)
    returns (r: Outcome)
    requires clients.db == projects.db
    ensures r == Validated(said, clients.db.tables)
  {
    if said.client.Some? && said.client.value !in clients.db.tables.clients { return NotFound(AClient); }
    if said.project.Some? && said.project.value !in projects.db.tables.projects { return NotFound(AProject); }
    return Done;
  }

  method CreateATestimonial(repository: TestimonialRepository, clients: ClientRepository,
                            projects: ProjectRepository, id: Id, said: Testimonial)
    returns (r: Outcome)
    requires repository.db == clients.db == projects.db
    requires Integrity(repository.db.tables) && Fresh(CreateTestimonial(id, said), repository.db.tables)
    modifies repository.db
    ensures r == Answer(CreateTestimonial(id, said), old(repository.db.tables))
    ensures repository.db.tables == After(CreateTestimonial(id, said), old(repository.db.tables))
  {
    r := ValidateReferences(said, clients, projects);
    if r != Done { return; }
    r := repository.Create(id, said);
  }

  method UpdateATestimonial(repository: TestimonialRepository, clients: ClientRepository,
                            projects: ProjectRepository, id: Id, said: Testimonial)
    returns (r: Outcome)
    requires repository.db == clients.db == projects.db && Integrity(repository.db.tables)
    modifies repository.db
    ensures r == Answer(UpdateTestimonial(id, said), old(repository.db.tables))
    ensures repository.db.tables == After(UpdateTestimonial(id, said), old(repository.db.tables))
  {
    r := ValidateReferences(said, clients, projects);
    if r != Done { return; }
    r := repository.Update(id, said);
  }
}
