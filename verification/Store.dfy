/** The relational store behind the catalogue: its constraints, and what each use case does to it. */
module Store {
  import opened Wrappers

  /** A UUID. */
  type Id = nat

  datatype Project = Project(slug: string, isPublic: bool, client: Option<Id>)

  datatype Testimonial = Testimonial(client: Option<Id>, project: Option<Id>)

  datatype Article = Article(slug: string, published: bool, publishedAt: Option<int>)

  /** A row of project_technologies. */
  datatype Link = Link(project: Id, technology: Id)

  /** A row of article_technologies. */
  datatype Mention = Mention(article: Id, technology: Id)

  datatype Tables = Tables(
    projects: map<Id, Project>,
    clients: map<Id, string>,
    technologies: map<Id, string>,
    studies: map<Id, Id>,
    testimonials: map<Id, Testimonial>,
    articles: map<Id, Article>,
    links: set<Link>,
    mentions: set<Mention>)

  // ---- the schema's constraints ----

  predicate UniqueSlugs(projects: map<Id, Project>) {
    forall a, b | a in projects && b in projects :: projects[a].slug == projects[b].slug ==> a == b
  }

  predicate UniqueNames(technologies: map<Id, string>) {
    forall a, b | a in technologies && b in technologies :: technologies[a] == technologies[b] ==> a == b
  }

  predicate Refers<T>(key: Option<Id>, rows: map<Id, T>) {
    key.Some? ==> key.value in rows
  }

  predicate ProjectKeys(projects: map<Id, Project>, clients: map<Id, string>) {
    forall p | p in projects :: Refers(projects[p].client, clients)
  }

  predicate StudyKeys(studies: map<Id, Id>, projects: map<Id, Project>) {
    forall s | s in studies :: studies[s] in projects
  }

  predicate TestimonialKeys(testimonials: map<Id, Testimonial>, clients: map<Id, string>, projects: map<Id, Project>) {
    forall w | w in testimonials ::
      Refers(testimonials[w].client, clients) && Refers(testimonials[w].project, projects)
  }

  predicate LinkKeys(links: set<Link>, projects: map<Id, Project>, technologies: map<Id, string>) {
    forall l | l in links :: l.project in projects && l.technology in technologies
  }

  predicate UniqueArticleSlugs(articles: map<Id, Article>) {
    forall a, b | a in articles && b in articles :: articles[a].slug == articles[b].slug ==> a == b
  }

  /** The CHECK constraint: a published article has a date. */
  predicate Consistent(a: Article) {
    a.published ==> a.publishedAt.Some?
  }

  predicate Dated(articles: map<Id, Article>) {
    forall a | a in articles :: Consistent(articles[a])
  }

  predicate MentionKeys(mentions: set<Mention>, articles: map<Id, Article>, technologies: map<Id, string>) {
    forall m | m in mentions :: m.article in articles && m.technology in technologies
  }

  /** What the database demands of every commit. */
  predicate Integrity(t: Tables) {
    && UniqueSlugs(t.projects)
    && UniqueNames(t.technologies)
    && ProjectKeys(t.projects, t.clients)
    && StudyKeys(t.studies, t.projects)
    && TestimonialKeys(t.testimonials, t.clients, t.projects)
    && LinkKeys(t.links, t.projects, t.technologies)
    && UniqueArticleSlugs(t.articles) && Dated(t.articles)
    && MentionKeys(t.mentions, t.articles, t.technologies)
  }

  // ---- the use cases ----

  datatype Op =
    | CreateProject(id: Id, slug: string, isPublic: bool, uses: seq<Id>)
    | UpdateProject(id: Id, slug: string, isPublic: bool, uses: seq<Id>)
    | DeleteProject(id: Id)
    | CreateClient(id: Id, name: string)
    | UpdateClient(id: Id, name: string)
    | DeleteClient(id: Id)
    | CreateTechnology(id: Id, name: string)
    | UpdateTechnology(id: Id, name: string)
    | DeleteTechnology(id: Id)
    | CreateStudy(id: Id, project: Id)
    | UpdateStudy(id: Id, project: Id)
    | DeleteStudy(id: Id)
    | CreateTestimonial(id: Id, said: Testimonial)
    | UpdateTestimonial(id: Id, said: Testimonial)
    | DeleteTestimonial(id: Id)
    | CreateArticle(id: Id, article: Article, uses: seq<Id>)
    | UpdateArticle(id: Id, article: Article, uses: seq<Id>)
    | DeleteArticle(id: Id)

  datatype Entity = AProject | AClient | ATechnology | ACaseStudy | ATestimonial | AnArticle

  /** IntegrityError and OperationalError are the database's own errors, which no repository has translated:
      the second for a CHECK constraint, as MySQL reports it. StaleData is the session's, when a row that it
      changes has gone since it was read. */
  datatype Outcome = Done | NotFound(what: Entity) | Conflict | IntegrityError | OperationalError | StaleData

  /** New ids come from uuid4 and are not in use. */
  predicate Fresh(op: Op, t: Tables) {
    match op
    case CreateProject(id, _, _, _) => id !in t.projects
    case CreateClient(id, _) => id !in t.clients
    case CreateTechnology(id, _) => id !in t.technologies
    case CreateStudy(id, _) => id !in t.studies
    case CreateTestimonial(id, _) => id !in t.testimonials
    case CreateArticle(id, _, _) => id !in t.articles
    case _ => true
  }

  predicate SlugTaken(t: Tables, slug: string, except: Id) {
    exists p | p in t.projects :: p != except && t.projects[p].slug == slug
  }

  predicate ArticleSlugTaken(t: Tables, slug: string, except: Id) {
    exists a | a in t.articles :: a != except && t.articles[a].slug == slug
  }

  predicate NameTaken(t: Tables, name: string, except: Id) {
    exists x | x in t.technologies :: x != except && t.technologies[x] == name
  }

  predicate ProjectReferenced(t: Tables, p: Id) {
    || (exists s | s in t.studies :: t.studies[s] == p)
    || (exists w | w in t.testimonials :: t.testimonials[w].project == Some(p))
  }

  predicate ClientReferenced(t: Tables, c: Id) {
    || (exists p | p in t.projects :: t.projects[p].client == Some(c))
    || (exists w | w in t.testimonials :: t.testimonials[w].client == Some(c))
  }

  /** The reference checks of the testimonial use cases: the client first. */
  function Validated(said: Testimonial, t: Tables): Outcome {
    if !Refers(said.client, t.clients) then NotFound(AClient)
    else if !Refers(said.project, t.projects) then NotFound(AProject)
    else Done
  }

  /** What the caller is told. */
  function Answer(op: Op, t: Tables): Outcome {
    match op
    case CreateProject(id, slug, _, _) => if SlugTaken(t, slug, id) then Conflict else Done
    case UpdateProject(id, slug, _, uses) =>
      if id !in t.projects then NotFound(AProject) else if SlugTaken(t, slug, id) then Refusal(uses) else Done
    case DeleteProject(id) =>
      if id !in t.projects then NotFound(AProject) else if ProjectReferenced(t, id) then Conflict else Done
    case CreateClient(_, _) => Done
    case UpdateClient(id, _) => if id !in t.clients then NotFound(AClient) else Done
    case DeleteClient(id) =>
      if id !in t.clients then NotFound(AClient) else if ClientReferenced(t, id) then Conflict else Done
    case CreateTechnology(id, name) => if NameTaken(t, name, id) then IntegrityError else Done
    case UpdateTechnology(id, name) =>
      if id !in t.technologies then NotFound(ATechnology) else if NameTaken(t, name, id) then IntegrityError else Done
    case DeleteTechnology(id) => if id !in t.technologies then NotFound(ATechnology) else Done
    case CreateStudy(_, project) => if project !in t.projects then NotFound(AProject) else Done
    case UpdateStudy(id, project) =>
      if id !in t.studies then NotFound(ACaseStudy) else if project !in t.projects then NotFound(AProject) else Done
    case DeleteStudy(id) => if id !in t.studies then NotFound(ACaseStudy) else Done
    case CreateTestimonial(_, said) => Validated(said, t)
    case UpdateTestimonial(id, said) =>
      if Validated(said, t) != Done then Validated(said, t)
      else if id !in t.testimonials then NotFound(ATestimonial) else Done
    case DeleteTestimonial(id) => if id !in t.testimonials then NotFound(ATestimonial) else Done
    case CreateArticle(id, article, _) => ArticleAnswer(t, id, article, Conflict)
    case UpdateArticle(id, article, uses) =>
      if id !in t.articles then NotFound(AnArticle) else ArticleAnswer(t, id, article, Refusal(uses))
    case DeleteArticle(id) => if id !in t.articles then NotFound(AnArticle) else Done
  }

  /** An update sets the columns and then queries the technologies, if any are asked for: the session
      flushes the columns before that query, outside the block that translates the error. */
  function Refusal(uses: seq<Id>): Outcome {
    if uses == [] then Conflict else IntegrityError
  }

  /** The CHECK constraint comes first, and only the refusal of a slug may be translated. */
  function ArticleAnswer(t: Tables, id: Id, article: Article, refusal: Outcome): Outcome {
    if !Consistent(article) then OperationalError
    else if ArticleSlugTaken(t, article.slug, id) then refusal
    else Done
  }

  predicate ArticleFits(t: Tables, id: Id, article: Article) {
    !ArticleSlugTaken(t, article.slug, id) && Consistent(article)
  }

  /** The known ones among the ids that were asked for: unknown and repeated ids are dropped. */
  function Known(uses: seq<Id>, technologies: map<Id, string>): set<Id> {
    set x | x in uses && x in technologies
  }

  function OwnLinks(p: Id, uses: set<Id>): set<Link> {
    set x | x in uses :: Link(p, x)
  }

  function LinksOf(t: Tables, p: Id): set<Link> {
    set l | l in t.links && l.project == p
  }

  function LinksTo(t: Tables, x: Id): set<Link> {
    set l | l in t.links && l.technology == x
  }

  function OwnMentions(a: Id, uses: set<Id>): set<Mention> {
    set x | x in uses :: Mention(a, x)
  }

  function MentionsOf(t: Tables, a: Id): set<Mention> {
    set m | m in t.mentions && m.article == a
  }

  function MentionsTo(t: Tables, x: Id): set<Mention> {
    set m | m in t.mentions && m.technology == x
  }

  /** An update leaves the project's client alone. */
  function Edited(t: Tables, id: Id, slug: string, isPublic: bool): Project {
    Project(slug, isPublic, if id in t.projects then t.projects[id].client else None)
  }

  /** The rows as the session leaves them, before the database has had its say. */
  function Pending(op: Op, t: Tables): Tables {
    match op
    case CreateProject(id, slug, isPublic, uses) =>
      t.(projects := t.projects[id := Project(slug, isPublic, None)],
         links := t.links + OwnLinks(id, Known(uses, t.technologies)))
    case UpdateProject(id, slug, isPublic, uses) =>
      t.(projects := t.projects[id := Edited(t, id, slug, isPublic)],
         links := t.links - LinksOf(t, id) + OwnLinks(id, Known(uses, t.technologies)))
    case DeleteProject(id) => t.(projects := t.projects - {id}, links := t.links - LinksOf(t, id))
    case CreateClient(id, name) => t.(clients := t.clients[id := name])
    case UpdateClient(id, name) => t.(clients := t.clients[id := name])
    case DeleteClient(id) => t.(clients := t.clients - {id})
    case CreateTechnology(id, name) => t.(technologies := t.technologies[id := name])
    case UpdateTechnology(id, name) => t.(technologies := t.technologies[id := name])
    case DeleteTechnology(id) =>
      t.(technologies := t.technologies - {id}, links := t.links - LinksTo(t, id),
         mentions := t.mentions - MentionsTo(t, id))
    case CreateStudy(id, project) => t.(studies := t.studies[id := project])
    case UpdateStudy(id, project) => t.(studies := t.studies[id := project])
    case DeleteStudy(id) => t.(studies := t.studies - {id})
    case CreateTestimonial(id, said) => t.(testimonials := t.testimonials[id := said])
    case UpdateTestimonial(id, said) => t.(testimonials := t.testimonials[id := said])
    case DeleteTestimonial(id) => t.(testimonials := t.testimonials - {id})
    case CreateArticle(id, article, uses) =>
      t.(articles := t.articles[id := article],
         mentions := t.mentions + OwnMentions(id, Known(uses, t.technologies)))
    case UpdateArticle(id, article, uses) =>
      t.(articles := t.articles[id := article],
         mentions := t.mentions - MentionsOf(t, id) + OwnMentions(id, Known(uses, t.technologies)))
    case DeleteArticle(id) => t.(articles := t.articles - {id}, mentions := t.mentions - MentionsOf(t, id))
  }

  function After(op: Op, t: Tables): Tables {
    if Answer(op, t) == Done then Pending(op, t) else t
  }

  // ---- which commits the database accepts ----

  lemma SlugCommits(t: Tables, id: Id, p: Project)
    requires UniqueSlugs(t.projects)
    ensures UniqueSlugs(t.projects[id := p]) <==> !SlugTaken(t, p.slug, id)
  {
    var next := t.projects[id := p];
    if x :| x in t.projects && x != id && t.projects[x].slug == p.slug {
      assert next[x].slug == next[id].slug;
    } else {
      forall a, b | a in next && b in next && next[a].slug == next[b].slug ensures a == b {
        assert a == id || b == id || t.projects[a].slug == t.projects[b].slug;
      }
    }
  }

  lemma NameCommits(t: Tables, id: Id, name: string)
    requires UniqueNames(t.technologies)
    ensures UniqueNames(t.technologies[id := name]) <==> !NameTaken(t, name, id)
  {
    var next := t.technologies[id := name];
    if x :| x in t.technologies && x != id && t.technologies[x] == name {
      assert next[x] == next[id];
    } else {
      forall a, b | a in next && b in next && next[a] == next[b] ensures a == b {
        assert a == id || b == id || t.technologies[a] == t.technologies[b];
      }
    }
  }

  lemma LinksCommit(t: Tables, id: Id, p: Project, uses: seq<Id>)
    requires LinkKeys(t.links, t.projects, t.technologies)
    ensures LinkKeys(t.links + OwnLinks(id, Known(uses, t.technologies)), t.projects[id := p], t.technologies)
    ensures LinkKeys(t.links - LinksOf(t, id) + OwnLinks(id, Known(uses, t.technologies)), t.projects[id := p],
                     t.technologies)
  {
  }

  /** Saving a project is refused exactly when another one has its slug: references cannot break. */
  lemma ProjectSaves(t: Tables, op: Op)
    requires Integrity(t) && Fresh(op, t)
    requires op.CreateProject? || (op.UpdateProject? && op.id in t.projects)
    ensures Integrity(Pending(op, t)) <==> !SlugTaken(t, op.slug, op.id)
  {
    var p := Pending(op, t).projects[op.id];
    SlugCommits(t, op.id, p);
    LinksCommit(t, op.id, p, op.uses);
    assert ProjectKeys(t.projects[op.id := p], t.clients);
    assert StudyKeys(t.studies, t.projects[op.id := p]);
    assert TestimonialKeys(t.testimonials, t.clients, t.projects[op.id := p]);
  }

  lemma ArticleSlugCommits(t: Tables, id: Id, a: Article)
    requires UniqueArticleSlugs(t.articles)
    ensures UniqueArticleSlugs(t.articles[id := a]) <==> !ArticleSlugTaken(t, a.slug, id)
  {
    var next := t.articles[id := a];
    if x :| x in t.articles && x != id && t.articles[x].slug == a.slug {
      assert next[x].slug == next[id].slug;
    } else {
      forall b, c | b in next && c in next && next[b].slug == next[c].slug ensures b == c {
        assert b == id || c == id || t.articles[b].slug == t.articles[c].slug;
      }
    }
  }

  lemma MentionsCommit(t: Tables, id: Id, a: Article, uses: seq<Id>)
    requires MentionKeys(t.mentions, t.articles, t.technologies)
    ensures MentionKeys(t.mentions + OwnMentions(id, Known(uses, t.technologies)), t.articles[id := a], t.technologies)
    ensures MentionKeys(t.mentions - MentionsOf(t, id) + OwnMentions(id, Known(uses, t.technologies)),
                        t.articles[id := a], t.technologies)
  {
  }

  lemma DatedCommits(articles: map<Id, Article>, id: Id, a: Article)
    requires Dated(articles)
    ensures Dated(articles[id := a]) <==> Consistent(a)
  {
    var next := articles[id := a];
    if Dated(next) { assert Consistent(next[id]); }
  }

  /** Saving an article is refused exactly if another one has its slug, or it is published without a date. */
  lemma ArticleSaves(t: Tables, op: Op)
    requires Integrity(t) && (op.CreateArticle? || op.UpdateArticle?)
    ensures Integrity(Pending(op, t)) <==> ArticleFits(t, op.id, op.article)
  {
    ArticleSlugCommits(t, op.id, op.article);
    DatedCommits(t.articles, op.id, op.article);
    MentionsCommit(t, op.id, op.article, op.uses);
    assert Pending(op, t).articles == t.articles[op.id := op.article];
  }

  lemma ArticleGone(t: Tables, id: Id)
    requires UniqueArticleSlugs(t.articles) && Dated(t.articles)
    requires MentionKeys(t.mentions, t.articles, t.technologies)
    ensures UniqueArticleSlugs(t.articles - {id}) && Dated(t.articles - {id})
    ensures MentionKeys(t.mentions - MentionsOf(t, id), t.articles - {id}, t.technologies)
  {
  }

  /** Nothing stops the deletion of an article: its mentions go with it. */
  lemma ArticleDeletes(t: Tables, id: Id)
    requires Integrity(t)
    ensures Integrity(Pending(DeleteArticle(id), t))
  {
    ArticleGone(t, id);
    assert Pending(DeleteArticle(id), t)
        == t.(articles := t.articles - {id}, mentions := t.mentions - MentionsOf(t, id));
  }

  /** Deleting a project is refused exactly while a case study or a testimonial points at it. */
  lemma ProjectDeletes(t: Tables, id: Id)
    requires Integrity(t) && id in t.projects
    ensures Integrity(Pending(DeleteProject(id), t)) <==> !ProjectReferenced(t, id)
  {
  }

  /** Deleting a client is refused exactly while a project or a testimonial points at it. */
  lemma ClientDeletes(t: Tables, id: Id)
    requires Integrity(t) && id in t.clients
    ensures Integrity(Pending(DeleteClient(id), t)) <==> !ClientReferenced(t, id)
  {
  }

  /** Nothing stops the deletion of a technology: its links go with it. */
  lemma TechnologyDeletes(t: Tables, id: Id)
    requires Integrity(t)
    ensures Integrity(Pending(DeleteTechnology(id), t))
  {
    var left := t.technologies - {id};
    assert LinkKeys(t.links - LinksTo(t, id), t.projects, left);
    assert MentionKeys(t.mentions - MentionsTo(t, id), t.articles, left);
  }

  lemma TechnologySaves(t: Tables, id: Id, name: string)
    requires Integrity(t)
    ensures Integrity(t.(technologies := t.technologies[id := name])) <==> !NameTaken(t, name, id)
  {
    NameCommits(t, id, name);
    assert MentionKeys(t.mentions, t.articles, t.technologies[id := name]);
    assert LinkKeys(t.links, t.projects, t.technologies[id := name]);
  }

  lemma StudySaves(t: Tables, id: Id, project: Id)
    requires Integrity(t)
    ensures Integrity(t.(studies := t.studies[id := project])) <==> project in t.projects
  {
    var next := t.studies[id := project];
    if StudyKeys(next, t.projects) { assert next[id] in t.projects; }
  }

  lemma TestimonialSaves(t: Tables, id: Id, said: Testimonial)
    requires Integrity(t)
    ensures Integrity(t.(testimonials := t.testimonials[id := said])) <==> Validated(said, t) == Done
  {
    var next := t.testimonials[id := said];
    if TestimonialKeys(next, t.clients, t.projects) { assert Refers(next[id].client, t.clients); }
  }

  lemma ClientSaves(t: Tables, id: Id, name: string)
    requires Integrity(t)
    ensures Integrity(t.(clients := t.clients[id := name]))
  {
  }

  lemma StudyGone(t: Tables, id: Id)
    requires Integrity(t)
    ensures Integrity(t.(studies := t.studies - {id}))
  {
  }

  lemma TestimonialGone(t: Tables, id: Id)
    requires Integrity(t)
    ensures Integrity(t.(testimonials := t.testimonials - {id}))
  {
  }

  lemma DependentsDelete(t: Tables, id: Id)
    requires Integrity(t)
    ensures Integrity(Pending(DeleteStudy(id), t)) && Integrity(Pending(DeleteTestimonial(id), t))
  {
    StudyGone(t, id);
    TestimonialGone(t, id);
  }

  /** The row that the use case reads first is there. */
  predicate Addressed(op: Op, t: Tables) {
    match op
    case UpdateProject(id, _, _, _) => id in t.projects
    case DeleteProject(id) => id in t.projects
    case UpdateClient(id, _) => id in t.clients
    case DeleteClient(id) => id in t.clients
    case UpdateTechnology(id, _) => id in t.technologies
    case DeleteTechnology(id) => id in t.technologies
    case UpdateStudy(id, _) => id in t.studies
    case DeleteStudy(id) => id in t.studies
    case UpdateTestimonial(id, _) => id in t.testimonials
    case DeleteTestimonial(id) => id in t.testimonials
    case UpdateArticle(id, _, _) => id in t.articles
    case DeleteArticle(id) => id in t.articles
    case _ => true
  }

  lemma ProjectsCommit(op: Op, t: Tables)
    requires Integrity(t) && Fresh(op, t) && Addressed(op, t)
    requires op.CreateProject? || op.UpdateProject? || op.DeleteProject?
    ensures Integrity(Pending(op, t)) <==> Answer(op, t) == Done
  {
    if op.DeleteProject? { ProjectDeletes(t, op.id); } else { ProjectSaves(t, op); }
  }

  lemma ArticlesCommit(op: Op, t: Tables)
    requires Integrity(t) && Fresh(op, t) && Addressed(op, t)
    requires op.CreateArticle? || op.UpdateArticle? || op.DeleteArticle?
    ensures Integrity(Pending(op, t)) <==> Answer(op, t) == Done
  {
    if op.DeleteArticle? { ArticleDeletes(t, op.id); } else { ArticleSaves(t, op); }
  }

  lemma CatalogueCommits(op: Op, t: Tables)
    requires Integrity(t) && Fresh(op, t) && Addressed(op, t)
    requires op.CreateClient? || op.UpdateClient? || op.DeleteClient?
          || op.CreateTechnology? || op.UpdateTechnology? || op.DeleteTechnology?
    ensures Integrity(Pending(op, t)) <==> Answer(op, t) == Done
  {
    match op
    case CreateClient(id, name) => ClientSaves(t, id, name);
    case UpdateClient(id, name) => ClientSaves(t, id, name);
    case DeleteClient(id) => ClientDeletes(t, id);
    case CreateTechnology(id, name) => TechnologySaves(t, id, name);
    case UpdateTechnology(id, name) => TechnologySaves(t, id, name);
    case DeleteTechnology(id) => TechnologyDeletes(t, id);
  }

  lemma DependentsCommit(op: Op, t: Tables)
    requires Integrity(t) && Fresh(op, t) && Addressed(op, t)
    requires op.CreateStudy? || op.UpdateStudy? || op.DeleteStudy?
          || op.CreateTestimonial? || op.UpdateTestimonial? || op.DeleteTestimonial?
    ensures Integrity(Pending(op, t)) <==> Answer(op, t) == Done
  {
    match op
    case CreateStudy(id, project) => StudySaves(t, id, project);
    case UpdateStudy(id, project) => StudySaves(t, id, project);
    case DeleteStudy(id) => DependentsDelete(t, id);
    case CreateTestimonial(id, said) => TestimonialSaves(t, id, said);
    case UpdateTestimonial(id, said) => TestimonialSaves(t, id, said);
    case DeleteTestimonial(id) => DependentsDelete(t, id);
  }

  /** The answer is Done exactly when the row is there and the database accepts the change. */
  lemma DoneIsCommitted(op: Op, t: Tables)
    requires Integrity(t) && Fresh(op, t)
    ensures Answer(op, t) == Done <==> Addressed(op, t) && Integrity(Pending(op, t))
  {
    if Addressed(op, t) {
      if op.CreateProject? || op.UpdateProject? || op.DeleteProject? {
        ProjectsCommit(op, t);
      } else if op.CreateStudy? || op.UpdateStudy? || op.DeleteStudy?
             || op.CreateTestimonial? || op.UpdateTestimonial? || op.DeleteTestimonial? {
        DependentsCommit(op, t);
      } else if op.CreateArticle? || op.UpdateArticle? || op.DeleteArticle? {
        ArticlesCommit(op, t);
      } else {
        CatalogueCommits(op, t);
      }
    }
  }

  // ---- whole runs ----

  function Run(ops: seq<Op>, t: Tables): Tables {
    if ops == [] then t else After(ops[|ops| - 1], Run(ops[..|ops| - 1], t))
  }

  predicate AllFresh(ops: seq<Op>, t: Tables) {
    ops == [] || (AllFresh(ops[..|ops| - 1], t) && Fresh(ops[|ops| - 1], Run(ops[..|ops| - 1], t)))
  }

  /** Every run keeps every key and every uniqueness constraint. */
  lemma {:induction false} RunKeepsIntegrity(ops: seq<Op>, t: Tables)
    requires Integrity(t) && AllFresh(ops, t)
    ensures Integrity(Run(ops, t))
  {
    if ops != [] {
      RunKeepsIntegrity(ops[..|ops| - 1], t);
      DoneIsCommitted(ops[|ops| - 1], Run(ops[..|ops| - 1], t));
    }
  }

  /** The use cases whose uniqueness errors are not translated: a technology's name, and the columns of a
      project or an article that is updated together with its technologies. */
  predicate Untranslated(op: Op) {
    || op.CreateTechnology? || op.UpdateTechnology?
    || ((op.UpdateProject? || op.UpdateArticle?) && op.uses != [])
  }

  /** A published article without a date, to be created or updated. */
  predicate Undated(op: Op) {
    (op.CreateArticle? || op.UpdateArticle?) && !Consistent(op.article)
  }

  lemma CheckErrors(op: Op, now: Tables)
    requires Integrity(now)
    ensures Answer(op, now) == OperationalError <==> Addressed(op, now) && Undated(op)
    ensures Undated(op) ==> !Integrity(Pending(op, now))
  {
    if Undated(op) { ArticleSaves(now, op); }
  }

  lemma UniquenessErrors(op: Op, now: Tables)
    requires Integrity(now) && Fresh(op, now)
    ensures Answer(op, now) == IntegrityError <==>
              Untranslated(op) && Addressed(op, now) && !Undated(op) && !Integrity(Pending(op, now))
    ensures Answer(op, now) != StaleData
  {
    DoneIsCommitted(op, now);
  }

  /** In a sequential run a database error reaches a caller exactly if the database refuses one of these, or
      an article that is published without a date; no reference ever does it. */
  lemma ErrorsThatEscape(ops: seq<Op>, op: Op, t: Tables)
    requires Integrity(t) && AllFresh(ops, t) && Fresh(op, Run(ops, t))
    ensures
      var now := Run(ops, t);
      && (Answer(op, now) == OperationalError <==> Addressed(op, now) && Undated(op))
      && (Answer(op, now) == IntegrityError <==>
            Untranslated(op) && Addressed(op, now) && !Undated(op) && !Integrity(Pending(op, now)))
      && (Undated(op) ==> !Integrity(Pending(op, now)))
      && Answer(op, now) != StaleData
  {
    RunKeepsIntegrity(ops, t);
    CheckErrors(op, Run(ops, t));
    UniquenessErrors(op, Run(ops, t));
  }

  /** Renaming a project to a slug in use: a conflict without technologies, the database's error with one. */
  lemma RenamedWithTechnology(t: Tables, p: Id, q: Id, x: Id)
    requires p in t.projects && q in t.projects && p != q
    ensures Answer(UpdateProject(p, t.projects[q].slug, true, []), t) == Conflict
    ensures Answer(UpdateProject(p, t.projects[q].slug, true, [x]), t) == IntegrityError
  {
  }

  // ---- slug lookup ----

  function BySlug(t: Tables, slug: string, publicOnly: bool): set<Id> {
    set p | p in t.projects && t.projects[p].slug == slug && (publicOnly ==> t.projects[p].isPublic)
  }

  lemma OneRowPerSlug(t: Tables, slug: string, publicOnly: bool)
    requires UniqueSlugs(t.projects)
    ensures |BySlug(t, slug, publicOnly)| <= 1
    ensures forall p | p in t.projects && t.projects[p].slug == slug ::
              BySlug(t, slug, publicOnly) == if !publicOnly || t.projects[p].isPublic then {p} else {}
  {
    var found := BySlug(t, slug, publicOnly);
    if p :| p in found { assert found == {p}; }
  }

  /** Slug lookup never sees two rows, and it sees a row exactly when there is one to see. */
  lemma SlugFindsOne(ops: seq<Op>, t: Tables, slug: string, publicOnly: bool)
    requires Integrity(t) && AllFresh(ops, t)
    ensures |BySlug(Run(ops, t), slug, publicOnly)| <= 1
    ensures forall p | p in Run(ops, t).projects && Run(ops, t).projects[p].slug == slug ::
              var seen := !publicOnly || Run(ops, t).projects[p].isPublic;
              BySlug(Run(ops, t), slug, publicOnly) == if seen then {p} else {}
  {
    RunKeepsIntegrity(ops, t);
    OneRowPerSlug(Run(ops, t), slug, publicOnly);
  }

  // ---- what deletions take with them ----

  /** Deleting a project, an article or a technology takes exactly its own association rows. */
  lemma DeletesOwnLinks(t: Tables, id: Id, l: Link, m: Mention)
    ensures Answer(DeleteProject(id), t) == Done ==>
              var next := After(DeleteProject(id), t);
              && (l in next.links <==> l in t.links && l.project != id) && next.mentions == t.mentions
              && next == t.(projects := t.projects - {id}, links := next.links)
    ensures Answer(DeleteArticle(id), t) == Done ==>
              var next := After(DeleteArticle(id), t);
              && (m in next.mentions <==> m in t.mentions && m.article != id) && next.links == t.links
              && next == t.(articles := t.articles - {id}, mentions := next.mentions)
    ensures Answer(DeleteTechnology(id), t) == Done ==>
              var next := After(DeleteTechnology(id), t);
              && (l in next.links <==> l in t.links && l.technology != id)
              && (m in next.mentions <==> m in t.mentions && m.technology != id)
              && next == t.(technologies := t.technologies - {id}, links := next.links, mentions := next.mentions)
  {
  }

  // ---- what a save stores ----

  /** The rows of the other ids are as before. */
  predicate OthersStay<T(==)>(id: Id, before: map<Id, T>, after: map<Id, T>) {
    after - {id} == before - {id}
  }

  /** A saved project has the slug and the visibility that were asked for, and the client that it had; no other
      row changes; and visitors find it under its slug, alone, exactly if it is public. */
  lemma SavesColumns(t: Tables, op: Op)
    requires Integrity(t) && Fresh(op, t) && Answer(op, t) == Done && (op.CreateProject? || op.UpdateProject?)
    ensures
      var next := After(op, t);
      && op.id in next.projects && next.projects[op.id].slug == op.slug
      && next.projects[op.id].isPublic == op.isPublic
      && next.projects[op.id].client == (if op.CreateProject? then None else t.projects[op.id].client)
      && OthersStay(op.id, t.projects, next.projects)
      && next == t.(projects := next.projects, links := next.links)
      && BySlug(next, op.slug, false) == {op.id}
      && (BySlug(next, op.slug, true) == {op.id} <==> op.isPublic)
  {
    DoneIsCommitted(op, t);
    OneRowPerSlug(After(op, t), op.slug, false);
    OneRowPerSlug(After(op, t), op.slug, true);
  }

  /** So has a saved article, with its own columns. */
  lemma SavesArticleColumns(t: Tables, op: Op)
    requires Fresh(op, t) && Answer(op, t) == Done && (op.CreateArticle? || op.UpdateArticle?)
    ensures
      var next := After(op, t);
      && op.id in next.articles && next.articles[op.id].slug == op.article.slug
      && next.articles[op.id].published == op.article.published
      && next.articles[op.id].publishedAt == op.article.publishedAt
      && (op.article.published ==> next.articles[op.id].publishedAt.Some?)
      && OthersStay(op.id, t.articles, next.articles)
      && next == t.(articles := next.articles, mentions := next.mentions)
  {
  }

  /** So have a client, a technology, a case study and a testimonial. */
  lemma SavesOtherColumns(t: Tables, op: Op)
    requires Fresh(op, t) && Answer(op, t) == Done
    ensures
      var next := After(op, t);
      && (op.CreateClient? || op.UpdateClient? ==>
            && op.id in next.clients && next.clients[op.id] == op.name
            && OthersStay(op.id, t.clients, next.clients) && next == t.(clients := next.clients))
      && (op.CreateTechnology? || op.UpdateTechnology? ==>
            && op.id in next.technologies && next.technologies[op.id] == op.name
            && OthersStay(op.id, t.technologies, next.technologies) && next == t.(technologies := next.technologies))
      && (op.CreateStudy? || op.UpdateStudy? ==>
            && op.id in next.studies && next.studies[op.id] == op.project && op.project in next.projects
            && OthersStay(op.id, t.studies, next.studies) && next == t.(studies := next.studies))
  {
  }

  lemma SavesReferences(t: Tables, op: Op)
    requires Fresh(op, t) && Answer(op, t) == Done && (op.CreateTestimonial? || op.UpdateTestimonial?)
    ensures
      var next := After(op, t);
      && op.id in next.testimonials && next.testimonials[op.id].client == op.said.client
      && next.testimonials[op.id].project == op.said.project
      && (op.said.client.Some? ==> op.said.client.value in next.clients)
      && (op.said.project.Some? ==> op.said.project.value in next.projects)
      && OthersStay(op.id, t.testimonials, next.testimonials) && next == t.(testimonials := next.testimonials)
  {
  }

  // ---- which row is not found ----

  /** The rows that a use case looks up, in its order. */
  function LooksUp(op: Op): seq<(Entity, Id)> {
    match op
    case UpdateProject(id, _, _, _) => [(AProject, id)]
    case DeleteProject(id) => [(AProject, id)]
    case UpdateClient(id, _) => [(AClient, id)]
    case DeleteClient(id) => [(AClient, id)]
    case UpdateTechnology(id, _) => [(ATechnology, id)]
    case DeleteTechnology(id) => [(ATechnology, id)]
    case CreateStudy(_, project) => [(AProject, project)]
    case UpdateStudy(id, project) => [(ACaseStudy, id), (AProject, project)]
    case DeleteStudy(id) => [(ACaseStudy, id)]
    case CreateTestimonial(_, said) => Pointers(said)
    case UpdateTestimonial(id, said) => Pointers(said) + [(ATestimonial, id)]
    case DeleteTestimonial(id) => [(ATestimonial, id)]
    case UpdateArticle(id, _, _) => [(AnArticle, id)]
    case DeleteArticle(id) => [(AnArticle, id)]
    case _ => []
  }

  function Pointers(said: Testimonial): seq<(Entity, Id)> {
    (if said.client.Some? then [(AClient, said.client.value)] else [])
    + (if said.project.Some? then [(AProject, said.project.value)] else [])
  }

  predicate Stored(t: Tables, row: (Entity, Id)) {
    match row.0
    case AProject => row.1 in t.projects
    case AClient => row.1 in t.clients
    case ATechnology => row.1 in t.technologies
    case ACaseStudy => row.1 in t.studies
    case ATestimonial => row.1 in t.testimonials
    case AnArticle => row.1 in t.articles
  }

  /** The entity of the first row that is not stored. */
  function FirstMissing(t: Tables, rows: seq<(Entity, Id)>): Option<Entity> {
    if rows == [] then None
    else if Stored(t, rows[0]) then FirstMissing(t, rows[1..])
    else Some(rows[0].0)
  }

  lemma MissingThen(t: Tables, row: (Entity, Id), rest: seq<(Entity, Id)>)
    ensures FirstMissing(t, [row] + rest) == if Stored(t, row) then FirstMissing(t, rest) else Some(row.0)
  {
    assert ([row] + rest)[1..] == rest;
  }

  lemma PointersMissing(t: Tables, said: Testimonial, more: seq<(Entity, Id)>)
    ensures FirstMissing(t, Pointers(said) + more)
         == if Validated(said, t) == NotFound(AClient) then Some(AClient)
            else if Validated(said, t) == NotFound(AProject) then Some(AProject) else FirstMissing(t, more)
  {
    var rest := (if said.project.Some? then [(AProject, said.project.value)] else []) + more;
    if said.client.Some? {
      MissingThen(t, (AClient, said.client.value), rest);
      assert Pointers(said) + more == [(AClient, said.client.value)] + rest;
    } else {
      assert Pointers(said) + more == rest;
    }
    if said.project.Some? { MissingThen(t, (AProject, said.project.value), more); } else { assert rest == more; }
  }

  predicate ChecksReferences(op: Op) {
    op.CreateStudy? || op.UpdateStudy? || op.CreateTestimonial? || op.UpdateTestimonial?
  }

  lemma OneLookup(t: Tables, op: Op, x: Entity)
    requires !ChecksReferences(op)
    ensures Answer(op, t) == NotFound(x) <==> FirstMissing(t, LooksUp(op)) == Some(x)
  {
    if |LooksUp(op)| == 1 { MissingThen(t, LooksUp(op)[0], []); }
  }

  lemma SeveralLookups(t: Tables, op: Op, x: Entity)
    requires ChecksReferences(op)
    ensures Answer(op, t) == NotFound(x) <==> FirstMissing(t, LooksUp(op)) == Some(x)
  {
    if op.UpdateStudy? {
      MissingThen(t, (ACaseStudy, op.id), [(AProject, op.project)]);
      assert LooksUp(op) == [(ACaseStudy, op.id)] + [(AProject, op.project)];
    } else if op.CreateTestimonial? {
      PointersMissing(t, op.said, []);
      assert Pointers(op.said) + [] == Pointers(op.said);
    } else if op.UpdateTestimonial? {
      PointersMissing(t, op.said, [(ATestimonial, op.id)]);
    }
  }

  /** NotFound names the entity of the first row that is looked up and missing, and is the answer only then. */
  lemma NotFoundExactly(t: Tables, op: Op, x: Entity)
    ensures Answer(op, t) == NotFound(x) <==> FirstMissing(t, LooksUp(op)) == Some(x)
  {
    if ChecksReferences(op) { SeveralLookups(t, op, x); } else { OneLookup(t, op, x); }
  }

  /** A saved project is linked to exactly the technologies that were asked for and exist; the links of
      other projects and its own client stay. */
  lemma SavesAskedTechnologies(t: Tables, op: Op)
    requires Integrity(t) && Fresh(op, t) && Answer(op, t) == Done && (op.CreateProject? || op.UpdateProject?)
    ensures forall x :: Link(op.id, x) in After(op, t).links <==> x in op.uses && x in t.technologies
    ensures forall l: Link :: l.project != op.id ==> (l in After(op, t).links <==> l in t.links)
    ensures op.id in t.projects ==> After(op, t).projects[op.id].client == t.projects[op.id].client
    ensures LinksOf(After(op, t), op.id) == OwnLinks(op.id, Known(op.uses, t.technologies))
  {
    assert forall l :: l in LinksOf(t, op.id) ==> op.id in t.projects;
    assert After(op, t) == Pending(op, t);
  }

  /** So is a saved article. */
  lemma SavesAskedMentions(t: Tables, op: Op)
    requires Integrity(t) && Fresh(op, t) && Answer(op, t) == Done && (op.CreateArticle? || op.UpdateArticle?)
    ensures forall x :: Mention(op.id, x) in After(op, t).mentions <==> x in op.uses && x in t.technologies
    ensures forall m: Mention :: m.article != op.id ==> (m in After(op, t).mentions <==> m in t.mentions)
    ensures MentionsOf(After(op, t), op.id) == OwnMentions(op.id, Known(op.uses, t.technologies))
  {
    assert forall m :: m in MentionsOf(t, op.id) ==> op.id in t.articles;
    assert After(op, t) == Pending(op, t);
  }

  /** Saving a project or an article again changes nothing. */
  lemma SavingAgain(t: Tables, op: Op)
    requires Integrity(t) && Fresh(op, t) && Answer(op, t) == Done
    requires op.CreateProject? || op.UpdateProject? || op.CreateArticle? || op.UpdateArticle?
    ensures
      var next := After(op, t);
      var again := if op.CreateProject? || op.UpdateProject? then UpdateProject(op.id, op.slug, op.isPublic, op.uses)
                   else UpdateArticle(op.id, op.article, op.uses);
      Answer(again, next) == Done && After(again, next) == next
  {
    if op.CreateProject? || op.UpdateProject? { ProjectAgain(t, op); } else { ArticleAgain(t, op); }
  }

  lemma ProjectAgain(t: Tables, op: Op)
    requires Integrity(t) && Fresh(op, t) && Answer(op, t) == Done && (op.CreateProject? || op.UpdateProject?)
    ensures
      var again := UpdateProject(op.id, op.slug, op.isPublic, op.uses);
      Answer(again, After(op, t)) == Done && After(again, After(op, t)) == After(op, t)
  {
    SavesAskedTechnologies(t, op);
    var next := After(op, t);
    assert next == Pending(op, t);
    var again := UpdateProject(op.id, op.slug, op.isPublic, op.uses);
    assert Pending(again, next).links == next.links;
    assert Pending(again, next).projects == next.projects;
  }

  lemma SlugStaysFree(t: Tables, id: Id, article: Article)
    ensures ArticleSlugTaken(t.(articles := t.articles[id := article]), article.slug, id)
       <==> ArticleSlugTaken(t, article.slug, id)
  {
    var next := t.articles[id := article];
    if a :| a in t.articles && a != id && t.articles[a].slug == article.slug { assert next[a].slug == article.slug; }
  }

  lemma ArticleAgain(t: Tables, op: Op)
    requires Integrity(t) && Fresh(op, t) && Answer(op, t) == Done && (op.CreateArticle? || op.UpdateArticle?)
    ensures
      var again := UpdateArticle(op.id, op.article, op.uses);
      Answer(again, After(op, t)) == Done && After(again, After(op, t)) == After(op, t)
  {
    SavesAskedMentions(t, op);
    SlugStaysFree(t, op.id, op.article);
    var next := After(op, t);
    assert next == Pending(op, t) && next.articles == t.articles[op.id := op.article];
    var again := UpdateArticle(op.id, op.article, op.uses);
    assert Answer(again, next) == Done;
    assert Pending(again, next).mentions == next.mentions;
    assert Pending(again, next).articles == next.articles;
  }

  /** The deletion that takes back a creation. */
  function Undo(op: Op): Op
    requires op.CreateProject? || op.CreateClient? || op.CreateTechnology? || op.CreateStudy?
          || op.CreateTestimonial? || op.CreateArticle?
  {
    match op
    case CreateProject(id, _, _, _) => DeleteProject(id)
    case CreateClient(id, _) => DeleteClient(id)
    case CreateTechnology(id, _) => DeleteTechnology(id)
    case CreateStudy(id, _) => DeleteStudy(id)
    case CreateTestimonial(id, _) => DeleteTestimonial(id)
    case CreateArticle(id, _, _) => DeleteArticle(id)
  }

  lemma NewIsUnreferenced(t: Tables, op: Op)
    requires Integrity(t) && Fresh(op, t) && Answer(op, t) == Done
    ensures op.CreateProject? ==>
              !ProjectReferenced(After(op, t), op.id) && LinksOf(t, op.id) == {}
              && LinksOf(After(op, t), op.id) == OwnLinks(op.id, Known(op.uses, t.technologies))
    ensures op.CreateClient? ==> !ClientReferenced(After(op, t), op.id)
    ensures op.CreateTechnology? ==> LinksTo(After(op, t), op.id) == {} && MentionsTo(After(op, t), op.id) == {}
    ensures op.CreateArticle? ==>
              MentionsOf(t, op.id) == {}
              && MentionsOf(After(op, t), op.id) == OwnMentions(op.id, Known(op.uses, t.technologies))
  {
  }

  ghost predicate Undone(t: Tables, op: Op)
    requires op.CreateProject? || op.CreateClient? || op.CreateTechnology? || op.CreateStudy?
          || op.CreateTestimonial? || op.CreateArticle?
  {
    Answer(Undo(op), After(op, t)) == Done && After(Undo(op), After(op, t)) == t
  }

  lemma LinkedUndone(t: Tables, op: Op)
    requires Integrity(t) && Fresh(op, t) && Answer(op, t) == Done
    requires op.CreateProject? || op.CreateTechnology? || op.CreateArticle?
    ensures Undone(t, op)
  {
    NewIsUnreferenced(t, op);
    var next := After(op, t);
    match op
    case CreateProject(id, _, _, _) =>
      assert next.projects - {id} == t.projects;
      assert next.links - LinksOf(next, id) == t.links;
    case CreateTechnology(id, _) =>
      assert next.technologies - {id} == t.technologies;
      assert next.links - LinksTo(next, id) == t.links && next.mentions - MentionsTo(next, id) == t.mentions;
    case CreateArticle(id, _, _) =>
      assert next.articles - {id} == t.articles;
      assert next.mentions - MentionsOf(next, id) == t.mentions;
  }

  /** Deleting what was just created restores the store, links included. */
  lemma CreateThenDelete(t: Tables, op: Op)
    requires Integrity(t) && Fresh(op, t) && Answer(op, t) == Done
    requires op.CreateProject? || op.CreateClient? || op.CreateTechnology? || op.CreateStudy?
          || op.CreateTestimonial? || op.CreateArticle?
    ensures Undone(t, op)
  {
    if op.CreateProject? || op.CreateTechnology? || op.CreateArticle? {
      LinkedUndone(t, op);
    } else {
      var next := After(op, t);
      if op.CreateClient? {
        NewIsUnreferenced(t, op);
        assert next.clients - {op.id} == t.clients;
      }
      if op.CreateStudy? { assert next.studies - {op.id} == t.studies; }
      if op.CreateTestimonial? { assert next.testimonials - {op.id} == t.testimonials; }
    }
  }

  // ---- the case studies that visitors see ----

  /** SELECT case_studies JOIN projects ON project_id = projects.id WHERE visibility = PUBLIC:
      the pairs of a case study and the project row it meets. */
  function Visible(t: Tables): set<(Id, Id)> {
    set s, p | s in t.studies && p in t.projects && t.studies[s] == p && t.projects[p].isPublic :: (s, p)
  }

  /** The join shows each case study once, with its own project, and drops only those of private projects. */
  lemma JoinShowsEachOnce(ops: seq<Op>, t: Tables, s: Id)
    requires Integrity(t) && AllFresh(ops, t) && s in Run(ops, t).studies
    ensures
      var now := Run(ops, t);
      && now.studies[s] in now.projects
      && forall p :: (s, p) in Visible(now) <==> p == now.studies[s] && now.projects[now.studies[s]].isPublic
  {
    RunKeepsIntegrity(ops, t);
  }
}
