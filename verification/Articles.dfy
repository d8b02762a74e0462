/** The article listing: the adapter's order against the fake's. */
module Articles {
  import opened Wrappers
  import S = Store

  /** An article with the columns that place it in a listing. */
  datatype Listed = Listed(id: nat, article: S.Article, created: int)

  function Date(a: Listed): Option<int> {
    a.article.publishedAt
  }

  /** Article.__post_init__ refuses what the table's CHECK constraint refuses. */
  function MakeArticle(id: nat, article: S.Article, created: int): (r: Result<Listed, ValueError>)
    ensures r.Ok? ==> S.Consistent(r.value.article)
    ensures r.Err? <==> article.published && article.publishedAt.None?
  {
    if article.published && article.publishedAt.None? then Err(ValueError) else Ok(Listed(id, article, created))
  }

  /** ORDER BY published_at DESC: the database puts nulls below every date, so last. */
  predicate SqlBefore(a: Listed, b: Listed) {
    Date(b).None? || (Date(a).Some? && Date(a).value >= Date(b).value)
  }

  /** published_at or created_at */
  function FakeKey(a: Listed): int {
    if Date(a).Some? then Date(a).value else a.created
  }

  /** sort(reverse=True) */
  predicate FakeBefore(a: Listed, b: Listed) {
    FakeKey(a) >= FakeKey(b)
  }

  ghost predicate SqlOrdering(bag: multiset<Listed>, full: seq<Listed>) {
    multiset(full) == bag && forall i, j :: 0 <= i < j < |full| ==> SqlBefore(full[i], full[j])
  }

  ghost predicate FakeOrdering(bag: multiset<Listed>, full: seq<Listed>) {
    multiset(full) == bag && forall i, j :: 0 <= i < j < |full| ==> FakeBefore(full[i], full[j])
  }

  function PublishedOnly(rows: seq<Listed>): seq<Listed> {
    if rows == [] then []
    else PublishedOnly(rows[..|rows| - 1]) + (if rows[|rows| - 1].article.published then [rows[|rows| - 1]] else [])
  }

  lemma {:induction false} PublishedMembers(rows: seq<Listed>)
    ensures forall a :: a in PublishedOnly(rows) <==> a in rows && a.article.published
  {
    if rows != [] {
      PublishedMembers(rows[..|rows| - 1]);
      assert rows == rows[..|rows| - 1] + [rows[|rows| - 1]];
    }
  }

  /** On the public list the fallback is never used, and both put the same articles in the same orders. */
  lemma PublicOrdersAgree(rows: seq<Listed>, full: seq<Listed>)
    requires forall a :: a in rows ==> S.Consistent(a.article)
    ensures forall a :: a in PublishedOnly(rows) ==> Date(a) == Some(FakeKey(a))
    ensures FakeOrdering(multiset(PublishedOnly(rows)), full) <==> SqlOrdering(multiset(PublishedOnly(rows)), full)
  {
    PublishedMembers(rows);
    if multiset(full) == multiset(PublishedOnly(rows)) {
      forall i | 0 <= i < |full| ensures Date(full[i]).Some? {
        assert full[i] in multiset(full);
      }
    }
  }

  /** The public list shows published articles only, the latest first, in the database and in the fake. */
  lemma LatestFirst(rows: seq<Listed>, full: seq<Listed>)
    requires forall a :: a in rows ==> S.Consistent(a.article)
    requires FakeOrdering(multiset(PublishedOnly(rows)), full) || SqlOrdering(multiset(PublishedOnly(rows)), full)
    ensures forall a :: a in full <==> a in rows && a.article.published
    ensures forall i, j :: 0 <= i < j < |full| ==>
              match (full[i].article.publishedAt, full[j].article.publishedAt)
              case (Some(first), Some(second)) => first >= second
              case _ => false
  {
    PublicOrdersAgree(rows, full);
    PublishedMembers(rows);
    forall a ensures a in full <==> a in rows && a.article.published {
      assert a in multiset(full) <==> a in multiset(PublishedOnly(rows));
    }
    forall i | 0 <= i < |full| ensures Date(full[i]) == Some(FakeKey(full[i])) { assert full[i] in full; }
  }

  /** An article without a date that the fake must put before one with a date. */
  predicate Overtakes(draft: Listed, dated: Listed) {
    Date(draft).None? && Date(dated).Some? && draft.created > Date(dated).value
  }

  predicate Level(draft: Listed, dated: Listed) {
    Date(draft).None? && Date(dated).Some? && draft.created == Date(dated).value
  }

  /** The fake's order, with level articles in one of two orders: dated first, or drafts first. */
  predicate Before(datedFirst: bool, a: Listed, b: Listed) {
    || FakeKey(a) > FakeKey(b)
    || (FakeKey(a) == FakeKey(b)
        && (Date(a).Some? == datedFirst || Date(b).Some? != datedFirst))
  }

  ghost predicate Arranged(datedFirst: bool, full: seq<Listed>) {
    forall i, j :: 0 <= i < j < |full| ==> Before(datedFirst, full[i], full[j])
  }

  lemma {:induction false} Foremost(datedFirst: bool, bag: multiset<Listed>) returns (m: Listed)
    requires bag != multiset{}
    ensures m in bag && forall a :: a in bag ==> Before(datedFirst, m, a)
    decreases |bag|
  {
    m :| m in bag;
    var rest := bag - multiset{m};
    assert forall a :: a in bag ==> a == m || a in rest;
    if rest != multiset{} {
      var n := Foremost(datedFirst, rest);
      if !Before(datedFirst, m, n) { m := n; }
    }
  }

  lemma {:induction false} Arrange(datedFirst: bool, bag: multiset<Listed>) returns (full: seq<Listed>)
    ensures multiset(full) == bag && Arranged(datedFirst, full)
    decreases |bag|
  {
    full := [];
    if bag != multiset{} {
      var m := Foremost(datedFirst, bag);
      var rest := Arrange(datedFirst, bag - multiset{m});
      full := [m] + rest;
      forall j | 0 <= j < |rest| ensures Before(datedFirst, m, rest[j]) {
        assert rest[j] in multiset(rest);
      }
    }
  }

  lemma ArrangedIsFake(datedFirst: bool, bag: multiset<Listed>, full: seq<Listed>)
    requires multiset(full) == bag && Arranged(datedFirst, full)
    ensures FakeOrdering(bag, full)
  {
    forall i, j | 0 <= i < j < |full| ensures FakeBefore(full[i], full[j]) {
      assert Before(datedFirst, full[i], full[j]);
    }
  }

  /** Where both stand in a list. */
  lemma Positions(bag: multiset<Listed>, full: seq<Listed>, d: Listed, p: Listed) returns (i: nat, j: nat)
    requires multiset(full) == bag && d in bag && p in bag
    ensures i < |full| && full[i] == d && j < |full| && full[j] == p
  {
    assert d in full && p in full;
    i :| i < |full| && full[i] == d;
    j :| j < |full| && full[j] == p;
  }

  lemma OvertakenDisagrees(bag: multiset<Listed>, full: seq<Listed>, d: Listed, p: Listed)
    requires d in bag && p in bag && Overtakes(d, p) && FakeOrdering(bag, full)
    ensures !SqlOrdering(bag, full)
  {
    var i, j := Positions(bag, full, d, p);
    assert i < j && !SqlBefore(full[i], full[j]);
  }

  lemma LevelDisagrees(bag: multiset<Listed>, full: seq<Listed>, d: Listed, p: Listed)
    requires d in bag && p in bag && Level(d, p) && multiset(full) == bag && Arranged(false, full)
    ensures !SqlOrdering(bag, full)
  {
    var i, j := Positions(bag, full, d, p);
    assert !Before(false, p, d);
    assert i < j && !SqlBefore(full[i], full[j]);
  }

  lemma DatedFirstAgrees(bag: multiset<Listed>, full: seq<Listed>)
    requires multiset(full) == bag && Arranged(true, full)
    requires forall d, p :: d in bag && p in bag ==> !Overtakes(d, p)
    ensures SqlOrdering(bag, full)
  {
    forall i, j | 0 <= i < j < |full| ensures SqlBefore(full[i], full[j]) {
      assert Before(true, full[i], full[j]) && full[i] in bag && full[j] in bag;
      assert !Overtakes(full[i], full[j]);
    }
  }

  /** The fake and the database share an order of the admin list if and only if no draft was created
      after a publication date. */
  lemma AdminSharesAnOrder(bag: multiset<Listed>)
    ensures (exists full :: FakeOrdering(bag, full) && SqlOrdering(bag, full))
       <==> (forall d, p :: d in bag && p in bag ==> !Overtakes(d, p))
  {
    if d, p :| d in bag && p in bag && Overtakes(d, p) {
      forall full | FakeOrdering(bag, full) ensures !SqlOrdering(bag, full) {
        OvertakenDisagrees(bag, full, d, p);
      }
    } else {
      var full := Arrange(true, bag);
      ArrangedIsFake(true, bag, full);
      DatedFirstAgrees(bag, full);
    }
  }

  lemma NoneLevelAgrees(bag: multiset<Listed>, full: seq<Listed>)
    requires FakeOrdering(bag, full)
    requires forall d, p :: d in bag && p in bag ==> !Overtakes(d, p) && !Level(d, p)
    ensures SqlOrdering(bag, full)
  {
    forall i, j | 0 <= i < j < |full| ensures SqlBefore(full[i], full[j]) {
      assert full[i] in bag && full[j] in bag;
      assert !Overtakes(full[i], full[j]) && !Level(full[i], full[j]);
    }
  }

  /** Every order of the fake is one of the database's if and only if, besides, no draft is level with a
      dated article. */
  lemma AdminOrders(bag: multiset<Listed>)
    ensures (forall full :: FakeOrdering(bag, full) ==> SqlOrdering(bag, full))
       <==> (forall d, p :: d in bag && p in bag ==> !Overtakes(d, p) && !Level(d, p))
  {
    if d, p :| d in bag && p in bag && (Overtakes(d, p) || Level(d, p)) {
      var full := Arrange(false, bag);
      ArrangedIsFake(false, bag, full);
      if Overtakes(d, p) { OvertakenDisagrees(bag, full, d, p); } else { LevelDisagrees(bag, full, d, p); }
    } else {
      forall full | FakeOrdering(bag, full) ensures SqlOrdering(bag, full) {
        NoneLevelAgrees(bag, full);
      }
    }
  }

  const POST := Listed(0, S.Article("post", true, Some(3)), 1)
  const LATE_DRAFT := Listed(1, S.Article("late", false, None), 5)
  const LEVEL_DRAFT := Listed(2, S.Article("level", false, None), 3)

  /** A draft later than a post: no order in common. A draft level with it: some, but not all. */
  lemma DraftsDisagree()
    ensures !exists full ::
              FakeOrdering(multiset{POST, LATE_DRAFT}, full) && SqlOrdering(multiset{POST, LATE_DRAFT}, full)
    ensures exists full ::
              FakeOrdering(multiset{POST, LEVEL_DRAFT}, full) && SqlOrdering(multiset{POST, LEVEL_DRAFT}, full)
    ensures exists full ::
              FakeOrdering(multiset{POST, LEVEL_DRAFT}, full) && !SqlOrdering(multiset{POST, LEVEL_DRAFT}, full)
  {
    AdminSharesAnOrder(multiset{POST, LATE_DRAFT});
    assert Overtakes(LATE_DRAFT, POST) && Level(LEVEL_DRAFT, POST);
    AdminSharesAnOrder(multiset{POST, LEVEL_DRAFT});
    AdminOrders(multiset{POST, LEVEL_DRAFT});
  }
}
