/** The use cases when other requests run between their reads and their commit: every request reads one
    consistent snapshot, and later writes the columns and association rows that differ from it. */
module StoreRaces {
  import opened Wrappers
  import opened Store

  /** What the reads lead to. Conflicts and database errors are decided later, at the commit. */
  function Checked(op: Op, t: Tables): Outcome {
    var answer := Answer(op, t);
    if answer == Conflict || answer == IntegrityError || answer == OperationalError then Done else answer
  }

  datatype Snapshot = Snapshot(op: Op, seen: Tables)

  const NOTHING := Tables(map[], map[], map[], map[], map[], map[], {}, {})

  /** A request that has passed its checks. */
  type Request = r: Snapshot | Checked(r.op, r.seen) == Done witness Snapshot(CreateClient(0, ""), NOTHING)

  // ---- what the session writes ----

  /** A column is written only if its value is not the one that was read. */
  function Merge<T(==)>(was: T, wanted: T, now: T): T {
    if wanted == was then now else wanted
  }

  function MergedProject(was: Project, slug: string, isPublic: bool, now: Project): Project {
    now.(slug := Merge(was.slug, slug, now.slug), isPublic := Merge(was.isPublic, isPublic, now.isPublic))
  }

  function MergedTestimonial(was: Testimonial, said: Testimonial, now: Testimonial): Testimonial {
    Testimonial(Merge(was.client, said.client, now.client), Merge(was.project, said.project, now.project))
  }

  function MergedArticle(was: Article, article: Article, now: Article): Article {
    Article(Merge(was.slug, article.slug, now.slug),
            Merge(was.published, article.published, now.published),
            Merge(was.publishedAt, article.publishedAt, now.publishedAt))
  }

  /** The links that a project is to have, by the technologies that were read. */
  function Asked(op: Op, seen: Tables): set<Link> {
    if op.CreateProject? || op.UpdateProject? then OwnLinks(op.id, Known(op.uses, seen.technologies)) else {}
  }

  function AskedMentions(op: Op, seen: Tables): set<Mention> {
    if op.CreateArticle? || op.UpdateArticle? then OwnMentions(op.id, Known(op.uses, seen.technologies)) else {}
  }

  /** The links that the session knows of. */
  function Had(op: Op, seen: Tables): set<Link> {
    match op
    case UpdateProject(id, _, _, _) => LinksOf(seen, id)
    case DeleteProject(id) => LinksOf(seen, id)
    case DeleteTechnology(id) => LinksTo(seen, id)
    case _ => {}
  }

  function HadMentions(op: Op, seen: Tables): set<Mention> {
    match op
    case UpdateArticle(id, _, _) => MentionsOf(seen, id)
    case DeleteArticle(id) => MentionsOf(seen, id)
    case DeleteTechnology(id) => MentionsTo(seen, id)
    case _ => {}
  }

  function Dropped(r: Request): set<Link> {
    Had(r.op, r.seen) - Asked(r.op, r.seen)
  }

  function Added(r: Request): set<Link> {
    Asked(r.op, r.seen) - Had(r.op, r.seen)
  }

  function DroppedMentions(r: Request): set<Mention> {
    HadMentions(r.op, r.seen) - AskedMentions(r.op, r.seen)
  }

  function AddedMentions(r: Request): set<Mention> {
    AskedMentions(r.op, r.seen) - HadMentions(r.op, r.seen)
  }

  /** The row that the request read and the one that is there now. */
  predicate Both<T>(id: Id, was: map<Id, T>, now: map<Id, T>) {
    id in was && id in now
  }

  function WrittenProjects(r: Request, t: Tables): map<Id, Project> {
    match r.op
    case CreateProject(id, slug, isPublic, _) => t.projects[id := Project(slug, isPublic, None)]
    case UpdateProject(id, slug, isPublic, _) =>
      if Both(id, r.seen.projects, t.projects)
      then t.projects[id := MergedProject(r.seen.projects[id], slug, isPublic, t.projects[id])]
      else t.projects
    case DeleteProject(id) => t.projects - {id}
    case _ => t.projects
  }

  function WrittenClients(r: Request, t: Tables): map<Id, string> {
    match r.op
    case CreateClient(id, name) => t.clients[id := name]
    case UpdateClient(id, name) =>
      if Both(id, r.seen.clients, t.clients)
      then t.clients[id := Merge(r.seen.clients[id], name, t.clients[id])] else t.clients
    case DeleteClient(id) => t.clients - {id}
    case _ => t.clients
  }

  function WrittenTechnologies(r: Request, t: Tables): map<Id, string> {
    match r.op
    case CreateTechnology(id, name) => t.technologies[id := name]
    case UpdateTechnology(id, name) =>
      if Both(id, r.seen.technologies, t.technologies)
      then t.technologies[id := Merge(r.seen.technologies[id], name, t.technologies[id])] else t.technologies
    case DeleteTechnology(id) => t.technologies - {id}
    case _ => t.technologies
  }

  function WrittenStudies(r: Request, t: Tables): map<Id, Id> {
    match r.op
    case CreateStudy(id, project) => t.studies[id := project]
    case UpdateStudy(id, project) =>
      if Both(id, r.seen.studies, t.studies)
      then t.studies[id := Merge(r.seen.studies[id], project, t.studies[id])] else t.studies
    case DeleteStudy(id) => t.studies - {id}
    case _ => t.studies
  }

  function WrittenTestimonials(r: Request, t: Tables): map<Id, Testimonial> {
    match r.op
    case CreateTestimonial(id, said) => t.testimonials[id := said]
    case UpdateTestimonial(id, said) =>
      if Both(id, r.seen.testimonials, t.testimonials)
      then t.testimonials[id := MergedTestimonial(r.seen.testimonials[id], said, t.testimonials[id])]
      else t.testimonials
    case DeleteTestimonial(id) => t.testimonials - {id}
    case _ => t.testimonials
  }

  function WrittenArticles(r: Request, t: Tables): map<Id, Article> {
    match r.op
    case CreateArticle(id, article, _) => t.articles[id := article]
    case UpdateArticle(id, article, _) =>
      if Both(id, r.seen.articles, t.articles)
      then t.articles[id := MergedArticle(r.seen.articles[id], article, t.articles[id])] else t.articles
    case DeleteArticle(id) => t.articles - {id}
    case _ => t.articles
  }

  function Write(r: Request, t: Tables): Tables {
    Tables(WrittenProjects(r, t), WrittenClients(r, t), WrittenTechnologies(r, t), WrittenStudies(r, t),
           WrittenTestimonials(r, t), WrittenArticles(r, t),
           t.links - Dropped(r) + Added(r), t.mentions - DroppedMentions(r) + AddedMentions(r))
  }

  // ---- what the database and the session say to it ----

  /** The row to update is still there; deleting one that has gone is not an error. */
  predicate RowHere(op: Op, t: Tables) {
    match op
    case UpdateProject(id, _, _, _) => id in t.projects
    case UpdateClient(id, _) => id in t.clients
    case UpdateTechnology(id, _) => id in t.technologies
    case UpdateStudy(id, _) => id in t.studies
    case UpdateTestimonial(id, _) => id in t.testimonials
    case UpdateArticle(id, _, _) => id in t.articles
    case _ => true
  }

  /** So are the association rows to delete. */
  predicate DropsHere(r: Request, t: Tables) {
    Dropped(r) <= t.links && DroppedMentions(r) <= t.mentions
  }

  /** The association rows to insert are not there yet. */
  predicate AddsNew(r: Request, t: Tables) {
    Added(r) !! t.links && AddedMentions(r) !! t.mentions
  }

  predicate AddsKnown(r: Request, t: Tables) {
    && (forall l | l in Added(r) :: l.technology in t.technologies)
    && (forall m | m in AddedMentions(r) :: m.technology in t.technologies)
  }

  /** The CHECK constraint accepts the row as it is written. */
  predicate CheckFits(r: Request, t: Tables) {
    match r.op
    case CreateArticle(_, article, _) => Consistent(article)
    case UpdateArticle(id, article, _) =>
      Both(id, r.seen.articles, t.articles) ==>
        Consistent(MergedArticle(r.seen.articles[id], article, t.articles[id]))
    case _ => true
  }

  /** The uniqueness constraints accept the columns that are written. */
  predicate ColumnsFit(r: Request, t: Tables) {
    match r.op
    case CreateProject(id, slug, _, _) => !SlugTaken(t, slug, id)
    case UpdateProject(id, slug, _, _) =>
      id in r.seen.projects && slug != r.seen.projects[id].slug ==> !SlugTaken(t, slug, id)
    case CreateTechnology(id, name) => !NameTaken(t, name, id)
    case UpdateTechnology(id, name) =>
      id in r.seen.technologies && name != r.seen.technologies[id] ==> !NameTaken(t, name, id)
    case CreateArticle(id, article, _) => !ArticleSlugTaken(t, article.slug, id)
    case UpdateArticle(id, article, _) =>
      id in r.seen.articles && article.slug != r.seen.articles[id].slug ==> !ArticleSlugTaken(t, article.slug, id)
    case _ => true
  }

  /** So do the foreign keys: those of the columns that are written, and those that point at a deleted row. */
  predicate KeysFit(r: Request, t: Tables) {
    match r.op
    case DeleteProject(id) => !ProjectReferenced(t, id) && LinksOf(t, id) <= Had(r.op, r.seen)
    case DeleteClient(id) => !ClientReferenced(t, id)
    case DeleteTechnology(id) => LinksTo(t, id) <= Had(r.op, r.seen) && MentionsTo(t, id) <= HadMentions(r.op, r.seen)
    case DeleteArticle(id) => MentionsOf(t, id) <= HadMentions(r.op, r.seen)
    case CreateStudy(_, project) => project in t.projects
    case UpdateStudy(id, project) => Both(id, r.seen.studies, t.studies) && project != r.seen.studies[id] ==>
                                       project in t.projects
    case CreateTestimonial(_, said) => Refers(said.client, t.clients) && Refers(said.project, t.projects)
    case UpdateTestimonial(id, said) =>
      Both(id, r.seen.testimonials, t.testimonials) ==>
        && (said.client != r.seen.testimonials[id].client ==> Refers(said.client, t.clients))
        && (said.project != r.seen.testimonials[id].project ==> Refers(said.project, t.projects))
    case _ => true
  }

  /** How a refused column is reported, and how anything else is. */
  function ColumnError(op: Op): Outcome {
    match op
    case UpdateProject(_, _, _, uses) => Refusal(uses)
    case UpdateArticle(_, _, uses) => Refusal(uses)
    case _ => OtherError(op)
  }

  function OtherError(op: Op): Outcome {
    if op.CreateProject? || op.UpdateProject? || op.DeleteProject? || op.DeleteClient? || op.CreateArticle?
       || op.UpdateArticle?
    then Conflict else IntegrityError
  }

  /** The statements in their order: the row, association rows out, association rows in. */
  function Verdict(r: Request, t: Tables): Outcome {
    if !RowHere(r.op, t) then StaleData
    else if !CheckFits(r, t) then OperationalError
    else if !ColumnsFit(r, t) then ColumnError(r.op)
    else if !DropsHere(r, t) then StaleData
    else if !AddsNew(r, t) || !AddsKnown(r, t) || !KeysFit(r, t) then OtherError(r.op)
    else Done
  }

  // ---- the verdict is what the constraints say ----

  /** The database accepts the rows as the session leaves them. */
  predicate Fits(r: Request, t: Tables) {
    CheckFits(r, t) && ColumnsFit(r, t) && AddsKnown(r, t) && KeysFit(r, t)
  }

  lemma Unlinked(r: Request, t: Tables)
    ensures Added(r) == {} && Dropped(r) == {} ==> Write(r, t).links == t.links
    ensures AddedMentions(r) == {} && DroppedMentions(r) == {} ==> Write(r, t).mentions == t.mentions
  {
  }

  lemma StudyFits(r: Request, t: Tables)
    requires Integrity(t) && RowHere(r.op, t) && (r.op.CreateStudy? || r.op.UpdateStudy?)
    ensures Fits(r, t) <==> Integrity(Write(r, t))
  {
    var project := WrittenStudies(r, t)[r.op.id];
    StudySaves(t, r.op.id, project);
    Unlinked(r, t);
    assert Write(r, t) == t.(studies := t.studies[r.op.id := project]);
  }

  lemma TestimonialFits(r: Request, t: Tables)
    requires Integrity(t) && RowHere(r.op, t) && (r.op.CreateTestimonial? || r.op.UpdateTestimonial?)
    ensures Fits(r, t) <==> Integrity(Write(r, t))
  {
    var said := WrittenTestimonials(r, t)[r.op.id];
    TestimonialSaves(t, r.op.id, said);
    Unlinked(r, t);
    assert Write(r, t) == t.(testimonials := t.testimonials[r.op.id := said]);
  }

  lemma ClientFits(r: Request, t: Tables)
    requires Integrity(t) && RowHere(r.op, t) && (r.op.CreateClient? || r.op.UpdateClient? || r.op.DeleteClient?)
    ensures Fits(r, t) <==> Integrity(Write(r, t))
  {
    Unlinked(r, t);
    if r.op.DeleteClient? {
      assert Write(r, t) == t.(clients := t.clients - {r.op.id});
      if r.op.id in t.clients { ClientDeletes(t, r.op.id); } else { assert t.clients - {r.op.id} == t.clients; }
    } else {
      var name := WrittenClients(r, t)[r.op.id];
      ClientSaves(t, r.op.id, name);
      assert Write(r, t) == t.(clients := t.clients[r.op.id := name]);
    }
  }

  lemma TechnologyFits(r: Request, t: Tables)
    requires Integrity(t) && RowHere(r.op, t) && (r.op.CreateTechnology? || r.op.UpdateTechnology?)
    ensures Fits(r, t) <==> Integrity(Write(r, t))
  {
    var name := WrittenTechnologies(r, t)[r.op.id];
    TechnologySaves(t, r.op.id, name);
    Unlinked(r, t);
    assert Write(r, t) == t.(technologies := t.technologies[r.op.id := name]);
  }

  lemma DependentFits(r: Request, t: Tables)
    requires Integrity(t) && (r.op.DeleteStudy? || r.op.DeleteTestimonial?)
    ensures Fits(r, t) && Integrity(Write(r, t))
  {
    Unlinked(r, t);
    DependentsDelete(t, r.op.id);
    assert Write(r, t) == Pending(r.op, t);
  }

  /** Association rows after a deletion or a save: the new ones need their technology, the old ones their
      project or technology. */
  lemma LinksFit(r: Request, t: Tables)
    requires Integrity(t) && AddsNew(r, t) && (r.op.CreateProject? || (r.op.UpdateProject? && r.op.id in t.projects))
    ensures LinkKeys(Write(r, t).links, Write(r, t).projects, t.technologies) <==> AddsKnown(r, t)
  {
    var next := Write(r, t);
    assert AddedMentions(r) == {};
    if LinkKeys(next.links, next.projects, t.technologies) {
      forall l | l in Added(r) ensures l.technology in t.technologies { assert l in next.links; }
    }
  }

  lemma ProjectFits(r: Request, t: Tables)
    requires Integrity(t) && RowHere(r.op, t) && AddsNew(r, t) && (r.op.CreateProject? || r.op.UpdateProject?)
    ensures Fits(r, t) <==> Integrity(Write(r, t))
  {
    var next := WrittenProjects(r, t);
    var p := next[r.op.id];
    assert next == t.projects[r.op.id := p];
    SlugCommits(t, r.op.id, p);
    LinksFit(r, t);
    Unlinked(r, t);
    assert ProjectKeys(next, t.clients) && StudyKeys(t.studies, next);
    assert TestimonialKeys(t.testimonials, t.clients, next);
    ProjectSlugFits(r, t);
  }

  lemma ProjectSlugFits(r: Request, t: Tables)
    requires Integrity(t) && RowHere(r.op, t) && (r.op.CreateProject? || r.op.UpdateProject?)
    ensures ColumnsFit(r, t) <==> !SlugTaken(t, WrittenProjects(r, t)[r.op.id].slug, r.op.id)
  {
  }

  lemma MentionsFit(r: Request, t: Tables)
    requires Integrity(t) && AddsNew(r, t) && (r.op.CreateArticle? || (r.op.UpdateArticle? && r.op.id in t.articles))
    ensures MentionKeys(Write(r, t).mentions, Write(r, t).articles, t.technologies) <==> AddsKnown(r, t)
  {
    var next := Write(r, t);
    assert Added(r) == {};
    if MentionKeys(next.mentions, next.articles, t.technologies) {
      forall m | m in AddedMentions(r) ensures m.technology in t.technologies { assert m in next.mentions; }
    }
  }

  lemma ArticleSaveFits(r: Request, t: Tables)
    requires Integrity(t) && RowHere(r.op, t) && AddsNew(r, t) && (r.op.CreateArticle? || r.op.UpdateArticle?)
    ensures Fits(r, t) <==> Integrity(Write(r, t))
  {
    var next := WrittenArticles(r, t);
    var a := next[r.op.id];
    assert next == t.articles[r.op.id := a];
    ArticleSlugCommits(t, r.op.id, a);
    DatedCommits(t.articles, r.op.id, a);
    MentionsFit(r, t);
    Unlinked(r, t);
    ArticleSlugFits(r, t);
  }

  lemma ArticleSlugFits(r: Request, t: Tables)
    requires Integrity(t) && RowHere(r.op, t) && (r.op.CreateArticle? || r.op.UpdateArticle?)
    ensures ColumnsFit(r, t) <==> !ArticleSlugTaken(t, WrittenArticles(r, t)[r.op.id].slug, r.op.id)
    ensures CheckFits(r, t) <==> Consistent(WrittenArticles(r, t)[r.op.id])
  {
  }

  lemma ProjectDeleteFits(r: Request, t: Tables)
    requires Integrity(t) && r.op.DeleteProject?
    ensures Fits(r, t) <==> Integrity(Write(r, t))
  {
    var id := r.op.id;
    Unlinked(r, t);
    if id in t.projects { ProjectDeletes(t, id); } else { assert t.projects - {id} == t.projects; }
    ProjectLinksLeft(r, t);
  }

  lemma ProjectLinksLeft(r: Request, t: Tables)
    requires Integrity(t) && r.op.DeleteProject?
    ensures LinkKeys(Write(r, t).links, t.projects - {r.op.id}, t.technologies)
       <==> LinksOf(t, r.op.id) <= Had(r.op, r.seen)
  {
    var next := Write(r, t);
    assert Added(r) == {};
    if LinkKeys(next.links, t.projects - {r.op.id}, t.technologies) {
      forall l | l in LinksOf(t, r.op.id) ensures l in Had(r.op, r.seen) {
        assert l in Had(r.op, r.seen) || l in next.links;
      }
    }
  }

  lemma TechnologyLinksLeft(r: Request, t: Tables)
    requires Integrity(t) && r.op.DeleteTechnology?
    ensures LinkKeys(Write(r, t).links, t.projects, t.technologies - {r.op.id})
       <==> LinksTo(t, r.op.id) <= Had(r.op, r.seen)
  {
    var next := Write(r, t);
    assert Added(r) == {};
    if LinkKeys(next.links, t.projects, t.technologies - {r.op.id}) {
      forall l | l in LinksTo(t, r.op.id) ensures l in Had(r.op, r.seen) {
        assert l in Had(r.op, r.seen) || l in next.links;
      }
    }
  }

  lemma TechnologyMentionsLeft(r: Request, t: Tables)
    requires Integrity(t) && r.op.DeleteTechnology?
    ensures MentionKeys(Write(r, t).mentions, t.articles, t.technologies - {r.op.id})
       <==> MentionsTo(t, r.op.id) <= HadMentions(r.op, r.seen)
  {
    var next := Write(r, t);
    assert AddedMentions(r) == {};
    if MentionKeys(next.mentions, t.articles, t.technologies - {r.op.id}) {
      forall m | m in MentionsTo(t, r.op.id) ensures m in HadMentions(r.op, r.seen) {
        assert m in HadMentions(r.op, r.seen) || m in next.mentions;
      }
    }
  }

  lemma TechnologyDeleteFits(r: Request, t: Tables)
    requires Integrity(t) && r.op.DeleteTechnology?
    ensures Fits(r, t) <==> Integrity(Write(r, t))
  {
    TechnologyLinksLeft(r, t);
    TechnologyMentionsLeft(r, t);
    assert UniqueNames(t.technologies - {r.op.id});
  }

  lemma ArticleDeleteFits(r: Request, t: Tables)
    requires Integrity(t) && r.op.DeleteArticle?
    ensures Fits(r, t) <==> Integrity(Write(r, t))
  {
    var next := Write(r, t);
    Unlinked(r, t);
    assert AddedMentions(r) == {};
    assert UniqueArticleSlugs(next.articles) && Dated(next.articles);
    if MentionKeys(next.mentions, next.articles, t.technologies) {
      forall m | m in MentionsOf(t, r.op.id) ensures m in HadMentions(r.op, r.seen) {
        assert m in HadMentions(r.op, r.seen) || m in next.mentions;
      }
    }
  }

  lemma AllFit(r: Request, t: Tables)
    requires Integrity(t) && RowHere(r.op, t) && AddsNew(r, t)
    ensures Fits(r, t) <==> Integrity(Write(r, t))
  {
    match r.op
    case CreateProject(_, _, _, _) => ProjectFits(r, t);
    case UpdateProject(_, _, _, _) => ProjectFits(r, t);
    case DeleteProject(_) => ProjectDeleteFits(r, t);
    case CreateClient(_, _) => ClientFits(r, t);
    case UpdateClient(_, _) => ClientFits(r, t);
    case DeleteClient(_) => ClientFits(r, t);
    case CreateTechnology(_, _) => TechnologyFits(r, t);
    case UpdateTechnology(_, _) => TechnologyFits(r, t);
    case DeleteTechnology(_) => TechnologyDeleteFits(r, t);
    case CreateStudy(_, _) => StudyFits(r, t);
    case UpdateStudy(_, _) => StudyFits(r, t);
    case DeleteStudy(_) => DependentFits(r, t);
    case CreateTestimonial(_, _) => TestimonialFits(r, t);
    case UpdateTestimonial(_, _) => TestimonialFits(r, t);
    case DeleteTestimonial(_) => DependentFits(r, t);
    case CreateArticle(_, _, _) => ArticleSaveFits(r, t);
    case UpdateArticle(_, _, _) => ArticleSaveFits(r, t);
    case DeleteArticle(_) => ArticleDeleteFits(r, t);
  }

  /** The commit succeeds exactly if the rows it changes or deletes are there, the association rows it
      inserts are not, and the result meets every constraint. */
  lemma CommitExactly(r: Request, t: Tables)
    requires Integrity(t)
    ensures Verdict(r, t) == Done <==>
              RowHere(r.op, t) && DropsHere(r, t) && AddsNew(r, t) && Integrity(Write(r, t))
  {
    if RowHere(r.op, t) && AddsNew(r, t) { AllFit(r, t); }
  }

  // ---- what a commit stores ----

  /** A committed update leaves the slug and the visibility as asked, if they differ from what was read, and
      otherwise as they are now; the client and the other projects are as they are now. */
  lemma CommittedProject(r: Request, t: Tables)
    requires r.op.UpdateProject? && Verdict(r, t) == Done
    ensures
      var id, next := r.op.id, Write(r, t).projects;
      && id in r.seen.projects && id in t.projects && id in next && OthersStay(id, t.projects, next)
      && var was, now := r.seen.projects[id], t.projects[id];
      && next[id].slug == (if r.op.slug != was.slug then r.op.slug else now.slug)
      && next[id].isPublic == (if r.op.isPublic != was.isPublic then r.op.isPublic else now.isPublic)
      && next[id].client == now.client
  {
  }

  /** So for an article. */
  lemma CommittedArticle(r: Request, t: Tables)
    requires r.op.UpdateArticle? && Verdict(r, t) == Done
    ensures
      var id, next := r.op.id, Write(r, t).articles;
      && id in r.seen.articles && id in t.articles && id in next && OthersStay(id, t.articles, next)
      && var was, asked, now := r.seen.articles[id], r.op.article, t.articles[id];
      && next[id].slug == (if asked.slug != was.slug then asked.slug else now.slug)
      && next[id].published == (if asked.published != was.published then asked.published else now.published)
      && next[id].publishedAt == (if asked.publishedAt != was.publishedAt then asked.publishedAt else now.publishedAt)
  {
  }

  /** For a client's and a technology's name. */
  lemma CommittedNames(r: Request, t: Tables)
    requires Verdict(r, t) == Done
    ensures r.op.UpdateClient? ==>
              var id, next := r.op.id, Write(r, t).clients;
              && id in r.seen.clients && id in t.clients && id in next && OthersStay(id, t.clients, next)
              && next[id] == (if r.op.name != r.seen.clients[id] then r.op.name else t.clients[id])
    ensures r.op.UpdateTechnology? ==>
              var id, was, next := r.op.id, r.seen.technologies, Write(r, t).technologies;
              && id in was && id in t.technologies && id in next && OthersStay(id, t.technologies, next)
              && next[id] == (if r.op.name != was[id] then r.op.name else t.technologies[id])
  {
  }

  /** And for a case study and a testimonial. */
  lemma CommittedReferences(r: Request, t: Tables)
    requires Verdict(r, t) == Done
    ensures r.op.UpdateStudy? ==>
              var id, next := r.op.id, Write(r, t).studies;
              && id in r.seen.studies && id in t.studies && id in next && OthersStay(id, t.studies, next)
              && next[id] == (if r.op.project != r.seen.studies[id] then r.op.project else t.studies[id])
    ensures r.op.UpdateTestimonial? ==>
              var id, was, next := r.op.id, r.seen.testimonials, Write(r, t).testimonials;
              && id in was && id in t.testimonials && id in next && OthersStay(id, t.testimonials, next)
              && var asked, now := r.op.said, t.testimonials[id];
              && next[id].client == (if asked.client != was[id].client then asked.client else now.client)
              && next[id].project == (if asked.project != was[id].project then asked.project else now.project)
  {
  }

  /** A committed save leaves a link as asked, if that is not how it was read, and otherwise as it is now; a link to
      drop is still there at the commit, and one to add is not yet. */
  lemma CommittedLinks(r: Request, t: Tables, l: Link)
    requires (r.op.CreateProject? || r.op.UpdateProject?) && Verdict(r, t) == Done
    ensures
      var asked := l.project == r.op.id && l.technology in r.op.uses && l.technology in r.seen.technologies;
      var read := r.op.UpdateProject? && l.project == r.op.id && l in r.seen.links;
      && (l in Write(r, t).links <==> if asked != read then asked else l in t.links)
      && (asked != read ==> (l in t.links <==> read))
  {
    assert l == Link(l.project, l.technology);
  }

  lemma CommittedMentions(r: Request, t: Tables, m: Mention)
    requires (r.op.CreateArticle? || r.op.UpdateArticle?) && Verdict(r, t) == Done
    ensures
      var asked := m.article == r.op.id && m.technology in r.op.uses && m.technology in r.seen.technologies;
      var read := r.op.UpdateArticle? && m.article == r.op.id && m in r.seen.mentions;
      && (m in Write(r, t).mentions <==> if asked != read then asked else m in t.mentions)
      && (asked != read ==> (m in t.mentions <==> read))
  {
    assert m == Mention(m.article, m.technology);
  }

  /** A committed deletion takes exactly its own association rows, and it had read them all. */
  lemma CommittedDeletion(r: Request, t: Tables, l: Link, m: Mention)
    requires Integrity(t) && Integrity(r.seen) && Verdict(r, t) == Done
    requires r.op.DeleteProject? || r.op.DeleteArticle? || r.op.DeleteTechnology?
    ensures
      var own := (r.op.DeleteProject? && l.project == r.op.id) || (r.op.DeleteTechnology? && l.technology == r.op.id);
      && (l in Write(r, t).links <==> l in t.links && !own)
      && (own ==> (l in r.seen.links <==> l in t.links))
    ensures
      var own := (r.op.DeleteArticle? && m.article == r.op.id) || (r.op.DeleteTechnology? && m.technology == r.op.id);
      && (m in Write(r, t).mentions <==> m in t.mentions && !own)
      && (own ==> (m in r.seen.mentions <==> m in t.mentions))
  {
    var linked := if r.op.DeleteProject? then LinksOf(t, r.op.id) else LinksTo(t, r.op.id);
    var mentioned := if r.op.DeleteArticle? then MentionsOf(t, r.op.id) else MentionsTo(t, r.op.id);
    assert l in linked ==> l in t.links;
    assert m in mentioned ==> m in t.mentions;
  }

  /** Its reads refuse a request exactly if a row that it looks up is missing; a row in use, and a value that the
      database refuses, it learns of at the commit. */
  lemma ReadsRefuseExactly(op: Op, t: Tables)
    ensures Checked(op, t) == match FirstMissing(t, LooksUp(op)) case Some(x) => NotFound(x) case None => Done
  {
    forall x ensures Answer(op, t) == NotFound(x) <==> FirstMissing(t, LooksUp(op)) == Some(x) {
      NotFoundExactly(t, op, x);
    }
    NeverStale(op, t);
  }

  lemma NeverStale(op: Op, t: Tables)
    ensures Answer(op, t) != StaleData
  {
  }

  // ---- any number of requests ----

  datatype State = State(tables: Tables, flights: map<nat, Request>, answers: map<nat, Outcome>)

  datatype Event = Read(pid: nat, op: Op) | Commit(pid: nat)

  predicate Enabled(s: State, e: Event) {
    match e
    case Read(pid, _) => pid !in s.flights && pid !in s.answers
    case Commit(pid) => pid in s.flights && Fresh(s.flights[pid].op, s.tables)
  }

  function Next(s: State, e: Event): State
    requires Enabled(s, e)
  {
    match e
    case Read(pid, op) =>
      if Checked(op, s.tables) != Done then s.(answers := s.answers[pid := Checked(op, s.tables)])
      else s.(flights := s.flights[pid := Snapshot(op, s.tables)])
    case Commit(pid) =>
      var r := s.flights[pid];
      var verdict := Verdict(r, s.tables);
      State(if verdict == Done then Write(r, s.tables) else s.tables, s.flights - {pid}, s.answers[pid := verdict])
  }

  predicate Valid(s: State, events: seq<Event>)
    decreases |events|
  {
    events == [] || (Enabled(s, events[0]) && Valid(Next(s, events[0]), events[1..]))
  }

  function Run(s: State, events: seq<Event>): State
    requires Valid(s, events)
    decreases |events|
  {
    if events == [] then s else Run(Next(s, events[0]), events[1..])
  }

  lemma StepKeepsIntegrity(s: State, e: Event)
    requires Integrity(s.tables) && Enabled(s, e)
    ensures Integrity(Next(s, e).tables)
  {
    if e.Commit? { CommitExactly(s.flights[e.pid], s.tables); }
  }

  /** In every interleaving, whatever is refused, the store keeps its keys and its uniqueness. */
  lemma {:induction false} RacesKeepIntegrity(s: State, events: seq<Event>)
    requires Integrity(s.tables) && Valid(s, events)
    ensures Integrity(Run(s, events).tables)
    decreases |events|
  {
    if events != [] {
      StepKeepsIntegrity(s, events[0]);
      RacesKeepIntegrity(Next(s, events[0]), events[1..]);
    }
  }

  // ---- without interruption ----

  lemma AloneLinks(op: Op, t: Tables)
    requires Integrity(t) && Fresh(op, t) && Checked(op, t) == Done
    ensures Write(Snapshot(op, t), t).links == Pending(op, t).links
    ensures Write(Snapshot(op, t), t).mentions == Pending(op, t).mentions
  {
  }

  lemma AloneWrites(op: Op, t: Tables)
    requires Integrity(t) && Fresh(op, t) && Checked(op, t) == Done
    ensures Write(Snapshot(op, t), t) == Pending(op, t)
  {
    AloneLinks(op, t);
    AloneColumns(op, t);
  }

  lemma AloneColumns(op: Op, t: Tables)
    requires Checked(op, t) == Done
    ensures
      var next := Write(Snapshot(op, t), t);
      var wanted := Pending(op, t);
      && next.projects == wanted.projects && next.clients == wanted.clients
      && next.technologies == wanted.technologies && next.studies == wanted.studies
      && next.testimonials == wanted.testimonials && next.articles == wanted.articles
  {
  }

  lemma AloneRows(op: Op, t: Tables)
    requires Integrity(t) && Fresh(op, t) && Checked(op, t) == Done
    ensures
      var r: Request := Snapshot(op, t);
      RowHere(op, t) && DropsHere(r, t) && AddsNew(r, t)
  {
  }

  lemma AloneErrors(op: Op, t: Tables)
    requires Integrity(t) && Fresh(op, t) && Checked(op, t) == Done && Answer(op, t) != Done
    ensures
      var r: Request := Snapshot(op, t);
      AddsKnown(r, t) && Verdict(r, t) == Answer(op, t)
  {
    AloneRows(op, t);
    AloneWrites(op, t);
    CommitExactly(Snapshot(op, t), t);
    DoneIsCommitted(op, t);
  }

  lemma AloneVerdict(op: Op, t: Tables)
    requires Integrity(t) && Fresh(op, t) && Checked(op, t) == Done
    ensures Verdict(Snapshot(op, t), t) == Answer(op, t)
    ensures (if Verdict(Snapshot(op, t), t) == Done then Write(Snapshot(op, t), t) else t) == After(op, t)
  {
    AloneWrites(op, t);
    AloneRows(op, t);
    CommitExactly(Snapshot(op, t), t);
    DoneIsCommitted(op, t);
    if Answer(op, t) != Done { AloneErrors(op, t); }
  }

  /** A request that nothing interrupts answers, and leaves the store, as Store describes. */
  lemma AloneIsWhole(s: State, pid: nat, op: Op)
    requires Integrity(s.tables) && Fresh(op, s.tables) && Enabled(s, Read(pid, op))
    ensures
      var whole := State(After(op, s.tables), s.flights, s.answers[pid := Answer(op, s.tables)]);
      var read := Next(s, Read(pid, op));
      if Checked(op, s.tables) != Done then read == whole
      else Enabled(read, Commit(pid)) && Next(read, Commit(pid)) == whole
  {
    if Checked(op, s.tables) == Done {
      AloneVerdict(op, s.tables);
      assert s.flights[pid := Snapshot(op, s.tables)] - {pid} == s.flights;
    }
  }

  // ---- what may disturb a save ----

  predicate Saves(op: Op) {
    || op.CreateProject? || op.UpdateProject? || op.CreateArticle? || op.UpdateArticle?
    || op.CreateStudy? || op.UpdateStudy? || op.CreateTestimonial? || op.UpdateTestimonial?
  }

  /** These two commits touch the same association row. */
  predicate Touches(op: Op, l: Link) {
    match op
    case CreateProject(id, _, _, _) => id == l.project
    case UpdateProject(id, _, _, _) => id == l.project
    case DeleteProject(id) => id == l.project
    case DeleteTechnology(id) => id == l.technology
    case _ => false
  }

  predicate TouchesMention(op: Op, m: Mention) {
    match op
    case CreateArticle(id, _, _) => id == m.article
    case UpdateArticle(id, _, _) => id == m.article
    case DeleteArticle(id) => id == m.article
    case DeleteTechnology(id) => id == m.technology
    case _ => false
  }

  /** A deletion takes the row that r saves or a row it points at, or a commit changes an association row
      that r changes. */
  predicate Disturbs(op: Op, r: Request) {
    || (exists l | l in Added(r) + Dropped(r) :: Touches(op, l))
    || (exists m | m in AddedMentions(r) + DroppedMentions(r) :: TouchesMention(op, m))
    || match op
       case DeleteProject(id) =>
         || (r.op.UpdateProject? && r.op.id == id)
         || ((r.op.CreateStudy? || r.op.UpdateStudy?) && r.op.project == id)
         || ((r.op.CreateTestimonial? || r.op.UpdateTestimonial?) && r.op.said.project == Some(id))
       case DeleteClient(id) => (r.op.CreateTestimonial? || r.op.UpdateTestimonial?) && r.op.said.client == Some(id)
       case DeleteStudy(id) => r.op.UpdateStudy? && r.op.id == id
       case DeleteTestimonial(id) => r.op.UpdateTestimonial? && r.op.id == id
       case DeleteArticle(id) => r.op.UpdateArticle? && r.op.id == id
       case _ => false
  }

  /** All that r's commit needs, but for free slugs. */
  predicate Steady(r: Request, t: Tables) {
    RowHere(r.op, t) && DropsHere(r, t) && AddsNew(r, t) && AddsKnown(r, t) && KeysFit(r, t)
  }

  lemma RowsStay(q: Request, t: Tables)
    ensures forall p :: p in t.projects && q.op != DeleteProject(p) ==> p in WrittenProjects(q, t)
    ensures forall c :: c in t.clients && q.op != DeleteClient(c) ==> c in WrittenClients(q, t)
    ensures forall x :: x in t.technologies && q.op != DeleteTechnology(x) ==> x in WrittenTechnologies(q, t)
    ensures forall w :: w in t.studies && q.op != DeleteStudy(w) ==> w in WrittenStudies(q, t)
    ensures forall w :: w in t.testimonials && q.op != DeleteTestimonial(w) ==> w in WrittenTestimonials(q, t)
    ensures forall a :: a in t.articles && q.op != DeleteArticle(a) ==> a in WrittenArticles(q, t)
  {
  }

  lemma LinksStay(q: Request, t: Tables)
    ensures forall l: Link :: !Touches(q.op, l) ==> (l in Write(q, t).links <==> l in t.links)
    ensures forall m: Mention :: !TouchesMention(q.op, m) ==> (m in Write(q, t).mentions <==> m in t.mentions)
  {
  }

  lemma AddsStay(q: Request, t: Tables, r: Request)
    requires DropsHere(r, t) && AddsNew(r, t) && AddsKnown(r, t) && !Disturbs(q.op, r)
    ensures DropsHere(r, Write(q, t)) && AddsNew(r, Write(q, t)) && AddsKnown(r, Write(q, t))
  {
    LinksStay(q, t);
    RowsStay(q, t);
    assert forall l :: l in Added(r) + Dropped(r) ==> !Touches(q.op, l);
    assert forall m :: m in AddedMentions(r) + DroppedMentions(r) ==> !TouchesMention(q.op, m);
    forall l | l in Added(r) ensures l.technology in Write(q, t).technologies {
      assert !Touches(q.op, l);
    }
    forall m | m in AddedMentions(r) ensures m.technology in Write(q, t).technologies {
      assert !TouchesMention(q.op, m);
    }
  }

  lemma ReferencesStay(q: Request, t: Tables, r: Request)
    requires Saves(r.op) && RowHere(r.op, t) && KeysFit(r, t) && !Disturbs(q.op, r)
    ensures RowHere(r.op, Write(q, t)) && KeysFit(r, Write(q, t))
  {
    RowsStay(q, t);
  }

  ghost predicate Undisturbed(s: State, events: seq<Event>, r: Request)
    requires Valid(s, events)
    decreases |events|
  {
    events != [] ==>
      && !(events[0].Commit? && Disturbs(s.flights[events[0].pid].op, r))
      && Undisturbed(Next(s, events[0]), events[1..], r)
  }

  lemma {:induction false} SteadyRun(s: State, events: seq<Event>, r: Request)
    requires Valid(s, events) && Saves(r.op) && Steady(r, s.tables) && Undisturbed(s, events, r)
    ensures Steady(r, Run(s, events).tables)
    decreases |events|
  {
    if events != [] {
      if events[0].Commit? {
        AddsStay(s.flights[events[0].pid], s.tables, r);
        ReferencesStay(s.flights[events[0].pid], s.tables, r);
      }
      SteadyRun(Next(s, events[0]), events[1..], r);
    }
  }

  lemma SteadyAtFirst(op: Op, t: Tables)
    requires Integrity(t) && Fresh(op, t) && Saves(op) && Checked(op, t) == Done
    ensures Steady(Snapshot(op, t), t)
  {
    AloneRows(op, t);
  }

  /** A checked save is stored, or is told that its row or its columns are refused, unless a commit in between deletes
      its row or a row it points at or changes an association row that it changes: whatever else ran. */
  lemma StoredUnlessDisturbed(s: State, op: Op, pid: nat, events: seq<Event>)
    requires Integrity(s.tables) && Fresh(op, s.tables) && Saves(op) && Checked(op, s.tables) == Done
    requires Enabled(s, Read(pid, op)) && Valid(Next(s, Read(pid, op)), events)
    requires
      var read, r := Next(s, Read(pid, op)), Snapshot(op, s.tables);
      && Undisturbed(read, events, r)
      && Enabled(Run(read, events), Commit(pid)) && Run(read, events).flights[pid] == r
    ensures
      var end := Run(Next(s, Read(pid, op)), events);
      var r: Request := Snapshot(op, s.tables);
      var done := Next(end, Commit(pid));
      && done.answers[pid]
         == (if !CheckFits(r, end.tables) then OperationalError
             else if !ColumnsFit(r, end.tables) then ColumnError(op)
             else Done)
      && done.tables == (if done.answers[pid] == Done then Write(r, end.tables) else end.tables)
  {
    SteadyAtFirst(op, s.tables);
    SteadyRun(Next(s, Read(pid, op)), events, Snapshot(op, s.tables));
  }

  // ---- two races that fail ----

  lemma Then(s: State, e: Event, events: seq<Event>)
    requires Enabled(s, e) && Valid(Next(s, e), events)
    ensures Valid(s, [e] + events) && Run(s, [e] + events) == Run(Next(s, e), events)
  {
    assert ([e] + events)[1..] == events;
  }

  lemma FourSteps(s: State, a: Event, b: Event, c: Event, d: Event)
    requires Enabled(s, a) && Enabled(Next(s, a), b) && Enabled(Next(Next(s, a), b), c)
    requires Enabled(Next(Next(Next(s, a), b), c), d)
    ensures Valid(s, [a] + ([b] + ([c] + ([d] + []))))
    ensures Run(s, [a] + ([b] + ([c] + ([d] + [])))) == Next(Next(Next(Next(s, a), b), c), d)
  {
    var s1 := Next(s, a);
    var s2 := Next(s1, b);
    var s3 := Next(s2, c);
    assert Valid(Next(s3, d), []);
    Then(s3, d, []);
    Then(s2, c, [d] + []);
    Then(s1, b, [c] + ([d] + []));
    Then(s, a, [b] + ([c] + ([d] + [])));
  }

  /** Request 1 runs whole between the reads and the commit of request 0. */
  function Interrupted(first: Op, second: Op): seq<Event> {
    [Read(0, first)] + ([Read(1, second)] + ([Commit(1)] + ([Commit(0)] + [])))
  }

  lemma LastCommit(t: Tables, r: Request, other: Outcome)
    requires Fresh(r.op, t)
    ensures
      var s := State(t, map[0 := r], map[1 := other]);
      && Enabled(s, Commit(0))
      && Next(s, Commit(0)).answers == map[0 := Verdict(r, t), 1 := other]
      && Next(s, Commit(0)).tables == if Verdict(r, t) == Done then Write(r, t) else t
  {
  }

  lemma InterruptedRun(t: Tables, first: Op, second: Op)
    requires Integrity(t) && Checked(first, t) == Done && Checked(second, t) == Done
    requires Fresh(second, t) && Fresh(first, After(second, t))
    ensures
      var start := State(t, map[], map[]);
      var r: Request := Snapshot(first, t);
      var verdict, others := Verdict(r, After(second, t)), After(second, t);
      && Valid(start, Interrupted(first, second))
      && Run(start, Interrupted(first, second)).answers == map[0 := verdict, 1 := Answer(second, t)]
      && Run(start, Interrupted(first, second)).tables == if verdict == Done then Write(r, others) else others
  {
    var start := State(t, map[], map[]);
    var s1 := Next(start, Read(0, first));
    assert s1 == State(t, map[0 := Snapshot(first, t)], map[]);
    AloneIsWhole(s1, 1, second);
    LastCommit(After(second, t), Snapshot(first, t), Answer(second, t));
    FourSteps(start, Read(0, first), Read(1, second), Commit(1), Commit(0));
  }

  /** A project deleted between the check of a case study and its commit: the caller gets the database's
      error. */
  lemma StudyRaceFails(t: Tables, p: Id, w: Id)
    requires Integrity(t) && p in t.projects && !ProjectReferenced(t, p) && w !in t.studies
    ensures
      var events := Interrupted(CreateStudy(w, p), DeleteProject(p));
      && Valid(State(t, map[], map[]), events)
      && Run(State(t, map[], map[]), events).answers == map[0 := IntegrityError, 1 := Done]
  {
    InterruptedRun(t, CreateStudy(w, p), DeleteProject(p));
  }

  /** A technology deleted between its load and the commit of a new project: the caller hears of a slug in
      use, and the slug is free. */
  lemma ProjectRaceFails(t: Tables, x: Id, q: Id, slug: string)
    requires Integrity(t) && x in t.technologies
    requires q !in t.projects && (forall a | a in t.projects :: t.projects[a].slug != slug)
    ensures
      var events := Interrupted(CreateProject(q, slug, true, [x]), DeleteTechnology(x));
      && Valid(State(t, map[], map[]), events)
      && Run(State(t, map[], map[]), events).answers == map[0 := Conflict, 1 := Done]
      && !SlugTaken(Run(State(t, map[], map[]), events).tables, slug, q)
  {
    var op := CreateProject(q, slug, true, [x]);
    InterruptedRun(t, op, DeleteTechnology(x));
    var r: Request := Snapshot(op, t);
    assert Link(q, x) in Added(r);
    assert !AddsKnown(r, After(DeleteTechnology(x), t));
  }

  /** A case study deleted while it is being updated: nothing is stored, and the session's own error is told. */
  lemma UpdateRaceFails(t: Tables, p: Id, w: Id)
    requires Integrity(t) && w in t.studies && p in t.projects
    ensures
      var events := Interrupted(UpdateStudy(w, p), DeleteStudy(w));
      && Valid(State(t, map[], map[]), events)
      && Run(State(t, map[], map[]), events).answers == map[0 := StaleData, 1 := Done]
  {
    InterruptedRun(t, UpdateStudy(w, p), DeleteStudy(w));
  }

  /** An article with a date is published by one request, while another takes its date away: each of the two
      is sound, and the database's error for the CHECK constraint reaches the first. */
  lemma PublishRaceFails(t: Tables, a: Id, date: int)
    requires Integrity(t) && a in t.articles && t.articles[a].publishedAt == Some(date) && !t.articles[a].published
    ensures
      var slug := t.articles[a].slug;
      var events := Interrupted(UpdateArticle(a, Article(slug, true, Some(date)), []),
                                UpdateArticle(a, Article(slug, false, None), []));
      && Valid(State(t, map[], map[]), events)
      && Run(State(t, map[], map[]), events).answers == map[0 := OperationalError, 1 := Done]
  {
    var slug := t.articles[a].slug;
    InterruptedRun(t, UpdateArticle(a, Article(slug, true, Some(date)), []),
                   UpdateArticle(a, Article(slug, false, None), []));
  }
}
