/** The seeding script: find or insert, in one session, committed at the end. */
module Seed {
  import opened Text
  import opened Wrappers
  import E = Emails

  datatype Technology = Technology(name: string, category: string)

  datatype Member = Member(user: nat, name: string)

  datatype Rows = Rows(users: seq<E.User>, technologies: seq<Technology>, companies: seq<string>, team: seq<Member>)

  const FOUNDER := "Yadzael Chalico"
  const COMPANY := "CH-TECH"

  datatype Failure = IntegrityError | MultipleResultsFound | NoResultFound

  // ---- the uniqueness constraints ----

  /** users.email_lower, which makes users.email unique too. */
  predicate UniqueUsers(users: seq<E.User>) {
    forall i, j | 0 <= i < j < |users| :: Lower(users[i].email) != Lower(users[j].email)
  }

  predicate DistinctNames(technologies: seq<Technology>) {
    forall i, j | 0 <= i < j < |technologies| :: technologies[i].name != technologies[j].name
  }

  predicate Constraints(rows: Rows) {
    UniqueUsers(rows.users) && DistinctNames(rows.technologies)
  }

  // ---- what a seeded store is ----

  predicate HasUser(users: seq<E.User>, email: string) {
    exists k | 0 <= k < |users| :: users[k].email == email
  }

  /** Another user's email differs from this one in case only. */
  predicate CaseClash(users: seq<E.User>, email: string) {
    exists k | 0 <= k < |users| :: users[k].email != email && Lower(users[k].email) == Lower(email)
  }

  predicate HasName(technologies: seq<Technology>, name: string) {
    exists k | 0 <= k < |technologies| :: technologies[k].name == name
  }

  function Named(team: seq<Member>, name: string): seq<Member> {
    if team == [] then []
    else Named(team[..|team| - 1], name) + (if team[|team| - 1].name == name then [team[|team| - 1]] else [])
  }

  function WithAdmin(users: seq<E.User>, email: string, id: nat): seq<E.User> {
    if HasUser(users, email) then users else users + [E.User(id, email)]
  }

  /** The first entry of each missing name, in the catalogue's order. */
  function WithCatalogue(technologies: seq<Technology>, catalogue: seq<Technology>): seq<Technology> {
    if catalogue == [] then technologies
    else
      var before := WithCatalogue(technologies, catalogue[..|catalogue| - 1]);
      var last := catalogue[|catalogue| - 1];
      if HasName(before, last.name) then before else before + [last]
  }

  function WithFounder(team: seq<Member>, users: seq<E.User>, email: string): seq<Member> {
    var admins := E.WithEmail(users, email);
    if Named(team, FOUNDER) != [] || admins == [] then team else team + [Member(admins[0].id, FOUNDER)]
  }

  function Seeded(rows: Rows, email: string, id: nat, catalogue: seq<Technology>): Rows {
    var users := WithAdmin(rows.users, email, id);
    Rows(users,
         WithCatalogue(rows.technologies, catalogue),
         if rows.companies == [] then [COMPANY] else rows.companies,
         WithFounder(rows.team, users, email))
  }

  /** What stops the script: the admin's email stored in other letters, or the founder's name twice. */
  predicate Blocked(rows: Rows, email: string) {
    (!HasUser(rows.users, email) && CaseClash(rows.users, email)) || |Named(rows.team, FOUNDER)| > 1
  }

  // ---- the script ----

  lemma AdminFlushes(users: seq<E.User>, email: string, id: nat)
    requires UniqueUsers(users) && !HasUser(users, email)
    ensures UniqueUsers(users + [E.User(id, email)]) <==> !CaseClash(users, email)
  {
    var next := users + [E.User(id, email)];
    if k :| 0 <= k < |users| && users[k].email != email && Lower(users[k].email) == Lower(email) {
      assert next[k] == users[k] && next[|users|].email == email;
    }
  }

  lemma UniqueEmails(users: seq<E.User>)
    requires UniqueUsers(users)
    ensures E.UniqueEmails(users)
  {
  }

  /** One user at most has the email, and the query finds it. */
  lemma OneAdmin(users: seq<E.User>, email: string)
    requires UniqueUsers(users)
    ensures |E.WithEmail(users, email)| == if HasUser(users, email) then 1 else 0
  {
  }

  lemma {:induction false} NamedMembers(team: seq<Member>, name: string)
    ensures forall m :: m in Named(team, name) <==> m in team && m.name == name
  {
    if team != [] {
      NamedMembers(team[..|team| - 1], name);
      assert team == team[..|team| - 1] + [team[|team| - 1]];
    }
  }

  predicate HasFounder(team: seq<Member>) {
    exists m | m in team :: m.name == FOUNDER
  }

  /** The team is as it was, or a founder has joined who is a user with this email. */
  ghost predicate FounderLinked(before: seq<Member>, after: seq<Member>, users: seq<E.User>, email: string) {
    if HasFounder(before) then after == before
    else exists u :: u in users && u.email == email && after == before + [Member(u.id, FOUNDER)]
  }

  /** The founder who joins is linked to the admin. */
  lemma LinksAdmin(team: seq<Member>, users: seq<E.User>, email: string)
    requires UniqueUsers(users) && HasUser(users, email)
    ensures FounderLinked(team, WithFounder(team, users, email), users, email)
  {
    NamedMembers(team, FOUNDER);
    OneAdmin(users, email);
    UniqueEmails(users);
    E.AtMostOneRow(users, email);
    if HasFounder(team) {
      var m :| m in team && m.name == FOUNDER;
      assert m in Named(team, FOUNDER);
    } else {
      assert Named(team, FOUNDER) == [] by {
        if Named(team, FOUNDER) != [] { assert Named(team, FOUNDER)[0] in Named(team, FOUNDER); }
      }
      assert E.WithEmail(users, email)[0] in E.WithEmail(users, email);
    }
  }

  lemma TechnologyFlushes(technologies: seq<Technology>, t: Technology)
    requires DistinctNames(technologies) && !HasName(technologies, t.name)
    ensures DistinctNames(technologies + [t])
  {
  }

  class Script {
    const settingsEmail: string
    const catalogue: seq<Technology>
    var stored: Rows
    /** What the open session sees: autoflush sends its inserts before the next query. */
    var session: Rows

    constructor (settingsEmail: string, catalogue: seq<Technology>, stored: Rows)
      ensures this.settingsEmail == settingsEmail && this.catalogue == catalogue && this.stored == stored
    {
      this.settingsEmail := settingsEmail;
      this.catalogue := catalogue;
      this.stored := stored;
      this.session := stored;
    }

    method SeedAdminUser(id: nat) returns (r: Result<(), Failure>)
      requires Constraints(session)
      modifies this`session
      ensures
        var email := E.Normalize(settingsEmail);
        if !HasUser(old(session).users, email) && CaseClash(old(session).users, email)
        then r == Err(IntegrityError)
        else r == Ok(()) && session == old(session).(users := WithAdmin(old(session).users, email, id))
      ensures r.Ok? ==> Constraints(session)
    {
      var adminEmail := E.Normalize(settingsEmail);
      OneAdmin(session.users, adminEmail);
      var existing := E.WithEmail(session.users, adminEmail);
      if |existing| > 1 { return Err(MultipleResultsFound); }
      if |existing| == 1 { return Ok(()); }
      AdminFlushes(session.users, adminEmail, id);
      session := session.(users := session.users + [E.User(id, adminEmail)]);
      if !UniqueUsers(session.users) { return Err(IntegrityError); }
      return Ok(());
    }

    method SeedTechnologies() returns (r: Result<(), Failure>)
      requires Constraints(session)
      modifies this`session
      ensures r == Ok(()) && Constraints(session)
      ensures session == old(session).(technologies := WithCatalogue(old(session).technologies, catalogue))
    {
      var i := 0;
      while i < |catalogue|
        invariant 0 <= i <= |catalogue| && Constraints(session)
        invariant session == old(session).(technologies := WithCatalogue(old(session).technologies, catalogue[..i]))
      {
        assert catalogue[..i + 1][..i] == catalogue[..i];
        if !HasName(session.technologies, catalogue[i].name) {
          TechnologyFlushes(session.technologies, catalogue[i]);
          session := session.(technologies := session.technologies + [catalogue[i]]);
          if !DistinctNames(session.technologies) { return Err(IntegrityError); }
        }
        i := i + 1;
      }
      assert catalogue[..i] == catalogue;
      return Ok(());
    }

    method SeedCompany()
      modifies this`session
      ensures session == old(session).(
          companies := if old(session).companies == [] then [COMPANY] else old(session).companies)
    {
      if session.companies == [] { session := session.(companies := [COMPANY]); }
    }

    method SeedTeam() returns (r: Result<(), Failure>)
      requires Constraints(session) && HasUser(session.users, E.Normalize(settingsEmail))
      modifies this`session
      ensures
        if |Named(old(session).team, FOUNDER)| > 1 then r == Err(MultipleResultsFound)
        else r == Ok(()) && session == old(session).(
            team := WithFounder(old(session).team, old(session).users, E.Normalize(settingsEmail)))
      ensures r.Ok? ==>
                FounderLinked(old(session).team, session.team, session.users, E.Normalize(settingsEmail))
    {
      LinksAdmin(session.team, session.users, E.Normalize(settingsEmail));
      var existing := Named(session.team, FOUNDER);
      if |existing| > 1 { return Err(MultipleResultsFound); }
      if |existing| == 1 { return Ok(()); }
      var adminEmail := E.Normalize(settingsEmail);
      OneAdmin(session.users, adminEmail);
      var admins := E.WithEmail(session.users, adminEmail);
      if |admins| != 1 { return Err(NoResultFound); }
      session := session.(team := session.team + [Member(admins[0].id, FOUNDER)]);
      return Ok(());
    }

    /** It fails exactly when something blocks it, and then nothing is stored. The admin that the team
        needs is always there. */
    method Run(id: nat) returns (r: Result<(), Failure>)
      requires Constraints(stored)
      modifies this
      ensures
        var email := E.Normalize(settingsEmail);
        if Blocked(old(stored), email) then r.Err? && r.error != NoResultFound && stored == old(stored)
        else r == Ok(()) && stored == Seeded(old(stored), email, id, catalogue)
    {
      session := stored;
      r := SeedAdminUser(id);
      if r.Err? { return; }
      assert HasUser(session.users, E.Normalize(settingsEmail)) by {
        AdminIsThere(stored.users, E.Normalize(settingsEmail), id);
      }
      r := SeedTechnologies();
      SeedCompany();
      r := SeedTeam();
      if r.Err? { return; }
      stored := session;
    }
  }

  lemma AdminIsThere(users: seq<E.User>, email: string, id: nat)
    ensures HasUser(WithAdmin(users, email, id), email)
  {
    if !HasUser(users, email) {
      assert WithAdmin(users, email, id)[|users|].email == email;
    }
  }

  // ---- seeding again ----

  lemma {:induction false} CatalogueKept(technologies: seq<Technology>, catalogue: seq<Technology>)
    requires DistinctNames(technologies)
    ensures DistinctNames(WithCatalogue(technologies, catalogue))
    ensures technologies <= WithCatalogue(technologies, catalogue)
    ensures forall k :: 0 <= k < |catalogue| ==> HasName(WithCatalogue(technologies, catalogue), catalogue[k].name)
  {
    if catalogue != [] {
      var front, last := catalogue[..|catalogue| - 1], catalogue[|catalogue| - 1];
      CatalogueKept(technologies, front);
      var before := WithCatalogue(technologies, front);
      var after := WithCatalogue(technologies, catalogue);
      assert forall name :: HasName(before, name) ==> HasName(after, name) by {
        forall name | HasName(before, name) ensures HasName(after, name) {
          var k :| 0 <= k < |before| && before[k].name == name;
          assert after[k] == before[k];
        }
      }
      assert HasName(after, last.name) by {
        if !HasName(before, last.name) { assert after[|before|] == last; }
      }
      forall k | 0 <= k < |catalogue| ensures HasName(after, catalogue[k].name) {
        if k < |front| { assert front[k] == catalogue[k]; }
      }
    }
  }

  /** The first entry of the catalogue with its name. */
  predicate FirstEntry(catalogue: seq<Technology>, t: Technology) {
    exists k | 0 <= k < |catalogue| ::
      catalogue[k] == t && forall j | 0 <= j < k :: catalogue[j].name != t.name
  }

  lemma FirstEntryLater(catalogue: seq<Technology>, t: Technology)
    requires catalogue != [] && FirstEntry(catalogue[..|catalogue| - 1], t)
    ensures FirstEntry(catalogue, t)
  {
    var front := catalogue[..|catalogue| - 1];
    var k :| 0 <= k < |front| && front[k] == t && forall j | 0 <= j < k :: front[j].name != t.name;
    assert catalogue[k] == t && forall j | 0 <= j < k :: catalogue[j].name == front[j].name;
  }

  /** What is added is the first entry of a name that was missing. */
  lemma {:induction false} AddedFromCatalogue(technologies: seq<Technology>, catalogue: seq<Technology>, t: Technology)
    requires DistinctNames(technologies) && t in WithCatalogue(technologies, catalogue) && t !in technologies
    ensures FirstEntry(catalogue, t) && !HasName(technologies, t.name)
  {
    if catalogue != [] {
      var front, last := catalogue[..|catalogue| - 1], catalogue[|catalogue| - 1];
      var before := WithCatalogue(technologies, front);
      CatalogueKept(technologies, front);
      if t in before {
        AddedFromCatalogue(technologies, front, t);
        FirstEntryLater(catalogue, t);
      } else {
        assert t == last && !HasName(before, t.name);
        forall j | 0 <= j < |front| ensures catalogue[j].name != t.name {
          assert HasName(before, front[j].name);
        }
        assert forall k :: 0 <= k < |technologies| ==> before[k] == technologies[k];
      }
    }
  }

  lemma {:induction false} NothingMissing(technologies: seq<Technology>, catalogue: seq<Technology>)
    requires forall k :: 0 <= k < |catalogue| ==> HasName(technologies, catalogue[k].name)
    ensures WithCatalogue(technologies, catalogue) == technologies
  {
    if catalogue != [] {
      var front := catalogue[..|catalogue| - 1];
      assert forall k :: 0 <= k < |front| ==> front[k] == catalogue[k];
      NothingMissing(technologies, front);
    }
  }

  lemma FounderCounts(team: seq<Member>, m: Member)
    ensures Named(team + [m], FOUNDER) == Named(team, FOUNDER) + (if m.name == FOUNDER then [m] else [])
  {
  }

  /** A seeded store keeps every uniqueness constraint and all that was there, and holds the admin, the
      catalogue and one founder. What is new is the admin, under the new id, the first entries of missing names,
      the company, and the founder, linked to the admin. */
  lemma SeededIsComplete(rows: Rows, email: string, id: nat, catalogue: seq<Technology>)
    requires Constraints(rows) && !Blocked(rows, email)
    ensures
      var next := Seeded(rows, email, id, catalogue);
      && Constraints(next)
      && rows.users <= next.users && rows.technologies <= next.technologies
      && rows.companies <= next.companies && rows.team <= next.team
      && HasUser(next.users, email) && |next.companies| >= 1 && |Named(next.team, FOUNDER)| == 1
      && (forall k :: 0 <= k < |catalogue| ==> HasName(next.technologies, catalogue[k].name))
      && (forall u :: u in next.users && u !in rows.users ==> u == E.User(id, email) && !HasUser(rows.users, email))
      && (forall t :: t in next.technologies && t !in rows.technologies ==>
            FirstEntry(catalogue, t) && !HasName(rows.technologies, t.name))
      && (forall c :: c in next.companies && c !in rows.companies ==> c == COMPANY && rows.companies == [])
      && FounderLinked(rows.team, next.team, next.users, email)
  {
    CatalogueKept(rows.technologies, catalogue);
    AdminIsThere(rows.users, email, id);
    forall t | t in WithCatalogue(rows.technologies, catalogue) && t !in rows.technologies
      ensures FirstEntry(catalogue, t) && !HasName(rows.technologies, t.name)
    {
      AddedFromCatalogue(rows.technologies, catalogue, t);
    }
    SeededTeam(rows, email, id);
  }

  /** The users, and the one founder among the team. */
  lemma SeededTeam(rows: Rows, email: string, id: nat)
    requires Constraints(rows) && !Blocked(rows, email)
    ensures
      var users := WithAdmin(rows.users, email, id);
      && UniqueUsers(users) && |Named(WithFounder(rows.team, users, email), FOUNDER)| == 1
      && FounderLinked(rows.team, WithFounder(rows.team, users, email), users, email)
  {
    var users := WithAdmin(rows.users, email, id);
    AdminIsThere(rows.users, email, id);
    if !HasUser(rows.users, email) { AdminFlushes(rows.users, email, id); }
    LinksAdmin(rows.team, users, email);
    OneAdmin(users, email);
    if Named(rows.team, FOUNDER) == [] {
      FounderCounts(rows.team, Member(E.WithEmail(users, email)[0].id, FOUNDER));
    }
  }

  /** A second run is not blocked and adds nothing. */
  lemma SeedingTwice(rows: Rows, email: string, id: nat, again: nat, catalogue: seq<Technology>)
    requires Constraints(rows) && !Blocked(rows, email)
    ensures
      var next := Seeded(rows, email, id, catalogue);
      !Blocked(next, email) && Seeded(next, email, again, catalogue) == next
  {
    SeededIsComplete(rows, email, id, catalogue);
    NothingMissing(WithCatalogue(rows.technologies, catalogue), catalogue);
  }

  function Times(rows: Rows, email: string, ids: seq<nat>, catalogue: seq<Technology>): Rows {
    if ids == [] then rows
    else Seeded(Times(rows, email, ids[..|ids| - 1], catalogue), email, ids[|ids| - 1], catalogue)
  }

  /** Any number of runs is one run. */
  lemma {:induction false} SeedingManyTimes(rows: Rows, email: string, ids: seq<nat>, catalogue: seq<Technology>)
    requires Constraints(rows) && !Blocked(rows, email) && ids != []
    ensures Times(rows, email, ids, catalogue) == Seeded(rows, email, ids[0], catalogue)
  {
    if |ids| == 1 {
      assert Times(rows, email, ids[..0], catalogue) == rows;
    } else {
      SeedingManyTimes(rows, email, ids[..|ids| - 1], catalogue);
      SeedingTwice(rows, email, ids[0], ids[|ids| - 1], catalogue);
    }
  }

  /** If the configured email is one, login finds the seeded admin under exactly its spellings; if it is
      not, login finds no admin at all: seeding does not validate it, reading the stored row back does. */
  lemma SeededAdminLogsIn(rows: Rows, settingsEmail: string, id: nat, catalogue: seq<Technology>, typed: string)
    returns (admin: E.User)
    requires Constraints(rows) && !Blocked(rows, E.Normalize(settingsEmail))
    ensures
      var users := Seeded(rows, E.Normalize(settingsEmail), id, catalogue).users;
      && admin in users && admin.email == E.Normalize(settingsEmail)
      && (E.MakeEmail(settingsEmail).Ok? ==>
            (E.GetByEmail(users, E.Normalize(typed)) == E.Found(admin)
             <==> E.Normalize(typed) == E.Normalize(settingsEmail)))
      && (E.MakeEmail(settingsEmail).Err? ==>
            && E.GetByEmail(users, E.Normalize(typed)) != E.Found(admin)
            && (E.Normalize(typed) == E.Normalize(settingsEmail) ==>
                  E.GetByEmail(users, E.Normalize(typed)) == E.InvalidStoredEmail))
  {
    var email := E.Normalize(settingsEmail);
    SeededIsComplete(rows, email, id, catalogue);
    var users := Seeded(rows, email, id, catalogue).users;
    UniqueEmails(users);
    E.AtMostOneRow(users, email);
    E.AtMostOneRow(users, E.Normalize(typed));
    OneAdmin(users, email);
    E.EmailTwice(settingsEmail);
    admin := E.WithEmail(users, email)[0];
    assert admin in E.WithEmail(users, email);
    if E.WithEmail(users, E.Normalize(typed)) != [] {
      assert E.WithEmail(users, E.Normalize(typed))[0] in E.WithEmail(users, E.Normalize(typed));
    }
  }

  lemma OnlyInvalid(id: nat, email: string, typed: string)
    requires E.MakeEmail(email).Err?
    ensures forall u :: E.GetByEmail([E.User(id, email)], typed) != E.Found(u)
  {
    var users := [E.User(id, email)];
    assert E.WithEmail(users[1..], typed) == [];
  }

  /** A configured value that is no email: the empty store is seeded with it, and nobody can log in. */
  lemma UnvalidatedAdmin(id: nat, catalogue: seq<Technology>, typed: string)
    ensures
      var empty := Rows([], [], [], []);
      var users := Seeded(empty, E.Normalize("admin"), id, catalogue).users;
      && Constraints(empty) && !Blocked(empty, E.Normalize("admin"))
      && forall u :: E.GetByEmail(users, E.Normalize(typed)) != E.Found(u)
  {
    NoEmail();
    var email := E.Normalize("admin");
    OnlyInvalid(id, email, E.Normalize(typed));
    assert WithAdmin([], email, id) == [E.User(id, email)];
  }

  lemma NormalForm()
    ensures E.Normalize("admin") == "admin"
  {
    var s := "admin";
    E.StripLeftDrops("", s);
    E.StripRightDrops(s, "");
    assert "" + s == s && s + "" == s;
    assert Lower(s) == s;
  }

  lemma NoEmail()
    ensures E.MakeEmail("admin").Err? && E.MakeEmail(E.Normalize("admin")).Err?
  {
    NormalForm();
    E.EmailExactly("admin");
    NoAt("admin");
  }

  lemma NoAt(s: string)
    requires '@' !in s
    ensures !E.EmailShaped(s)
  {
    forall a: nat | a < |s| ensures !E.OnlyAt(s, a) {
      assert s[a] in s;
    }
  }

  /** Both obstacles are real: these stores meet every constraint, and the script cannot seed them. The
      first holds the configured email in other letters. */
  lemma CapitalsBlock(email: string, spelling: string, id: nat)
    requires spelling != email && SameButCase(spelling, email)
    ensures Constraints(Rows([E.User(id, spelling)], [], [], []))
    ensures Blocked(Rows([E.User(id, spelling)], [], [], []), email)
  {
    var users := [E.User(id, spelling)];
    LowerExactly(spelling, email);
    assert users[0].email == spelling;
  }

  /** The second has two team members of the founder's name, which no constraint forbids. */
  lemma NamesakesBlock(email: string, a: nat, b: nat)
    ensures Constraints(Rows([], [], [], [Member(a, FOUNDER), Member(b, FOUNDER)]))
    ensures Blocked(Rows([], [], [], [Member(a, FOUNDER), Member(b, FOUNDER)]), email)
  {
  }
}
