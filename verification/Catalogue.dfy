/** The listing over the store: what ProjectListing asks of its rows holds after every run of Store. */
module Catalogue {
  import PL = ProjectListing
  import Projects
  import S = Store

  ghost predicate RowOf(t: S.Tables, p: Projects.Project) {
    p.id in t.projects && t.projects[p.id].slug == p.slug && t.projects[p.id].isPublic == p.isPublic
  }

  /** The rows of the store, each once, in some order. */
  ghost predicate Holds(t: S.Tables, db: PL.Database) {
    && (forall i, j :: 0 <= i < j < |db.projects| ==> db.projects[i].id != db.projects[j].id)
    && (forall i, j :: 0 <= i < j < |db.technologies| ==> db.technologies[i].id != db.technologies[j].id)
    && (forall i, j :: 0 <= i < j < |db.links| ==> db.links[i] != db.links[j])
    && (forall p :: p in db.projects ==> RowOf(t, p))
    && (forall id :: id in t.projects ==> exists p :: p in db.projects && p.id == id)
    && (forall x :: x in db.technologies ==> x.id in t.technologies && t.technologies[x.id] == x.name)
    && (forall id :: id in t.technologies ==> PL.Technology(id, t.technologies[id]) in db.technologies)
    && (forall l :: l in db.links <==> l in t.links)
  }

  lemma NamesApart(t: S.Tables, db: PL.Database)
    requires S.UniqueNames(t.technologies) && Holds(t, db)
    ensures PL.Constraints(db)
  {
  }

  /** The project is linked to a technology of this name. */
  ghost predicate LinkedByName(t: S.Tables, id: S.Id, name: string) {
    exists x :: x in t.technologies && t.technologies[x] == name && S.Link(id, x) in t.links
  }

  lemma UsesIsLinked(t: S.Tables, db: PL.Database, p: Projects.Project, name: string)
    requires Holds(t, db)
    ensures PL.Uses(db, p, name) <==> LinkedByName(t, p.id, name)
  {
    if x :| x in t.technologies && t.technologies[x] == name && S.Link(p.id, x) in t.links {
      var l, technology := S.Link(p.id, x), PL.Technology(x, name);
      assert l in db.links && technology in db.technologies && PL.LinkedTo(p, l, technology, name);
    }
    if l, x :| l in db.links && x in db.technologies && PL.LinkedTo(p, l, x, name) {
      assert S.Link(p.id, x.id) in t.links && x.id in t.technologies;
    }
  }

  /** Whatever has been created, updated and deleted, the query lists the projects linked to the
      technology, filtered, sorted and sliced: no project twice, none lost to the join. */
  lemma ListAfterAnyRun(ops: seq<S.Op>, t: S.Tables, db: PL.Database, f: PL.Filters, publicOnly: bool,
                        out: seq<Projects.Project>)
    requires S.Integrity(t) && S.AllFresh(ops, t) && Holds(S.Run(ops, t), db)
    requires 1 <= f.page && 1 <= f.limit
    ensures PL.SqlAnswer(db, f, publicOnly, out) <==> PL.SpecAnswer(db, f, publicOnly, out)
    ensures forall p, name :: PL.Uses(db, p, name) <==> LinkedByName(S.Run(ops, t), p.id, name)
  {
    S.RunKeepsIntegrity(ops, t);
    NamesApart(S.Run(ops, t), db);
    PL.ListIsFilterSortSlice(db, f, publicOnly, out);
    forall p, name ensures PL.Uses(db, p, name) <==> LinkedByName(S.Run(ops, t), p.id, name) {
      UsesIsLinked(S.Run(ops, t), db, p, name);
    }
  }

  /** After a project has been saved, no public listing shows it if it was saved as private, and every listing
      that shows it shows the slug it was saved with. */
  lemma SavedIsListed(ops: seq<S.Op>, op: S.Op, t: S.Tables, db: PL.Database, f: PL.Filters, publicOnly: bool,
                      out: seq<Projects.Project>, p: Projects.Project)
    requires S.Integrity(t) && S.AllFresh(ops, t) && S.Fresh(op, S.Run(ops, t))
    requires (op.CreateProject? || op.UpdateProject?) && S.Answer(op, S.Run(ops, t)) == S.Done
    requires Holds(S.After(op, S.Run(ops, t)), db) && 1 <= f.page && 1 <= f.limit
    requires PL.SqlAnswer(db, f, publicOnly, out) && p in out && p.id == op.id
    ensures p.slug == op.slug && p.isPublic == op.isPublic && (publicOnly ==> op.isPublic)
  {
    var now := S.Run(ops, t);
    S.RunKeepsIntegrity(ops, t);
    S.SavesColumns(now, op);
    S.DoneIsCommitted(op, now);
    NamesApart(S.After(op, now), db);
    PL.AnswerIsStored(db, f, publicOnly, out);
  }
}
