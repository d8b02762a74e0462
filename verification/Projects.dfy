/** The rows of the project catalogue, their order, and sequence operations on them. */
module Projects {

  datatype Project = Project(
    id: nat, slug: string, title: string, status: string, isPublic: bool, featured: bool, created: int)

  function Filter(s: seq<Project>, keep: Project -> bool): seq<Project> {
    if s == [] then []
    else
      var rest := Filter(s[..|s| - 1], keep);
      if keep(s[|s| - 1]) then rest + [s[|s| - 1]] else rest
  }

  lemma {:induction false} FilterSame(s: seq<Project>, f: Project -> bool, g: Project -> bool)
    requires forall p :: p in s ==> f(p) == g(p)
    ensures Filter(s, f) == Filter(s, g)
  {
    if s != [] { FilterSame(s[..|s| - 1], f, g); }
  }

  lemma {:induction false} FilterTwice(s: seq<Project>, f: Project -> bool, g: Project -> bool)
    ensures Filter(Filter(s, f), g) == Filter(s, (p: Project) => f(p) && g(p))
  {
    if s != [] { FilterTwice(s[..|s| - 1], f, g); }
  }

  lemma {:induction false} FilterMembers(s: seq<Project>, keep: Project -> bool)
    ensures forall p :: p in Filter(s, keep) <==> p in s && keep(p)
  {
    if s != [] {
      FilterMembers(s[..|s| - 1], keep);
      assert s == s[..|s| - 1] + [s[|s| - 1]];
    }
  }

  predicate Distinct(s: seq<Project>) {
    forall i, j :: 0 <= i < j < |s| ==> s[i] != s[j]
  }

  lemma {:induction false} FilterDistinct(s: seq<Project>, keep: Project -> bool)
    requires Distinct(s)
    ensures Distinct(Filter(s, keep))
  {
    if s != [] {
      FilterDistinct(s[..|s| - 1], keep);
      FilterMembers(s[..|s| - 1], keep);
    }
  }

  lemma {:induction false} DistinctCounts(s: seq<Project>)
    ensures Distinct(s) <==> forall p :: multiset(s)[p] <= 1
  {
    if s != [] {
      var rest, last := s[..|s| - 1], s[|s| - 1];
      assert s == rest + [last];
      DistinctCounts(rest);
      assert multiset(s)[last] == multiset(rest)[last] + 1;
      if !Distinct(rest) {
        var p :| multiset(rest)[p] > 1;
        assert multiset(s)[p] > 1;
      } else if last in rest {
        assert multiset(s)[last] > 1;
      }
    }
  }

  // ---- ORDER BY ----

  /** Lexicographic order by code point. */
  predicate StringLeq(a: string, b: string) {
    a == "" || (b != "" && (a[0] < b[0] || (a[0] == b[0] && StringLeq(a[1..], b[1..]))))
  }

  lemma StringTotal(a: string, b: string)
    ensures StringLeq(a, b) || StringLeq(b, a)
  {
  }

  lemma StringTransitive(a: string, b: string, c: string)
    requires StringLeq(a, b) && StringLeq(b, c)
    ensures StringLeq(a, c)
  {
  }

  predicate KeyLeq(byTitle: bool, p: Project, q: Project) {
    if byTitle then StringLeq(p.title, q.title) else p.created <= q.created
  }

  lemma KeyTotal(byTitle: bool, p: Project, q: Project)
    ensures KeyLeq(byTitle, p, q) || KeyLeq(byTitle, q, p)
  {
    StringTotal(p.title, q.title);
  }

  lemma KeyTransitive(byTitle: bool, p: Project, q: Project, r: Project)
    requires KeyLeq(byTitle, p, q) && KeyLeq(byTitle, q, r)
    ensures KeyLeq(byTitle, p, r)
  {
    if byTitle { StringTransitive(p.title, q.title, r.title); }
  }

  predicate Sorted(byTitle: bool, s: seq<Project>) {
    forall i, j :: 0 <= i < j < |s| ==> KeyLeq(byTitle, s[i], s[j])
  }

  // ---- what the order means, on the columns ----

  /** One string begins the other, or is smaller where they first differ. */
  ghost predicate Alphabetical(a: string, b: string) {
    a <= b || exists k :: 0 <= k < |a| && k < |b| && a[..k] == b[..k] && a[k] < b[k]
  }

  lemma {:induction false} StringLeqExactly(a: string, b: string)
    ensures StringLeq(a, b) <==> Alphabetical(a, b)
  {
    if a != "" && b != "" && a[0] == b[0] {
      StringLeqExactly(a[1..], b[1..]);
      AlphabeticalTails(a, b);
    } else if a != "" && b != "" && a[0] < b[0] {
      assert a[..0] == b[..0];
    }
  }

  lemma AlphabeticalTails(a: string, b: string)
    requires a != "" && b != "" && a[0] == b[0]
    ensures Alphabetical(a, b) <==> Alphabetical(a[1..], b[1..])
  {
    if k :| 0 <= k < |a| && k < |b| && a[..k] == b[..k] && a[k] < b[k] {
      assert k > 0 && a[1..][..k - 1] == a[..k][1..] && b[1..][..k - 1] == b[..k][1..];
    }
    if k :| 0 <= k < |a| - 1 && k < |b| - 1 && a[1..][..k] == b[1..][..k] && a[1..][k] < b[1..][k] {
      assert a[..k + 1] == [a[0]] + a[1..][..k] && b[..k + 1] == [b[0]] + b[1..][..k];
    }
    if a[1..] <= b[1..] { assert a == [a[0]] + a[1..] && b == [b[0]] + b[1..]; }
  }

  /** Not the younger of the two, or not the later in the alphabet. */
  ghost predicate NotAfter(byTitle: bool, p: Project, q: Project) {
    if byTitle then Alphabetical(p.title, q.title) else p.created <= q.created
  }

  lemma KeyExactly(byTitle: bool, p: Project, q: Project)
    ensures KeyLeq(byTitle, p, q) <==> NotAfter(byTitle, p, q)
  {
    if byTitle { StringLeqExactly(p.title, q.title); }
  }

  /** Oldest first, or by title. */
  ghost predicate InOrder(byTitle: bool, s: seq<Project>) {
    forall i, j :: 0 <= i < j < |s| ==> NotAfter(byTitle, s[i], s[j])
  }

  /** To be sorted is to stand in the order of the column asked for. */
  lemma SortedExactly(byTitle: bool, s: seq<Project>)
    ensures Sorted(byTitle, s) <==> InOrder(byTitle, s)
  {
    forall i, j | 0 <= i < j < |s| ensures KeyLeq(byTitle, s[i], s[j]) <==> NotAfter(byTitle, s[i], s[j]) {
      KeyExactly(byTitle, s[i], s[j]);
    }
  }

  /** Behind everything that may stay before it, so equal keys keep their order. */
  function Insert(byTitle: bool, s: seq<Project>, p: Project): seq<Project> {
    if s == [] || KeyLeq(byTitle, s[|s| - 1], p) then s + [p]
    else Insert(byTitle, s[..|s| - 1], p) + [s[|s| - 1]]
  }

  function StableSort(byTitle: bool, s: seq<Project>): seq<Project> {
    if s == [] then [] else Insert(byTitle, StableSort(byTitle, s[..|s| - 1]), s[|s| - 1])
  }

  lemma {:induction false} InsertCounts(byTitle: bool, s: seq<Project>, p: Project)
    ensures multiset(Insert(byTitle, s, p)) == multiset(s) + multiset{p}
  {
    if s != [] && !KeyLeq(byTitle, s[|s| - 1], p) {
      InsertCounts(byTitle, s[..|s| - 1], p);
      assert s == s[..|s| - 1] + [s[|s| - 1]];
    }
  }

  lemma {:induction false} InsertSorted(byTitle: bool, s: seq<Project>, p: Project)
    requires Sorted(byTitle, s)
    ensures Sorted(byTitle, Insert(byTitle, s, p))
  {
    if s == [] {
    } else if KeyLeq(byTitle, s[|s| - 1], p) {
      forall i | 0 <= i < |s| ensures KeyLeq(byTitle, s[i], p) {
        if i < |s| - 1 { KeyTransitive(byTitle, s[i], s[|s| - 1], p); }
      }
    } else {
      var rest, last := s[..|s| - 1], s[|s| - 1];
      InsertSorted(byTitle, rest, p);
      KeyTotal(byTitle, p, last);
      var front := Insert(byTitle, rest, p);
      forall i | 0 <= i < |front| ensures KeyLeq(byTitle, front[i], last) {
        InsertCounts(byTitle, rest, p);
        assert front[i] in multiset(front);
        assert front[i] in rest || front[i] == p;
      }
    }
  }

  lemma {:induction false} StableSortSorts(byTitle: bool, s: seq<Project>)
    ensures Sorted(byTitle, StableSort(byTitle, s))
    ensures multiset(StableSort(byTitle, s)) == multiset(s)
  {
    if s != [] {
      var rest, last := s[..|s| - 1], s[|s| - 1];
      StableSortSorts(byTitle, rest);
      InsertSorted(byTitle, StableSort(byTitle, rest), last);
      InsertCounts(byTitle, StableSort(byTitle, rest), last);
      assert s == rest + [last];
    }
  }

  lemma FilterAppend(s: seq<Project>, p: Project, keep: Project -> bool)
    ensures Filter(s + [p], keep) == Filter(s, keep) + (if keep(p) then [p] else [])
  {
  }

  lemma InsertAtEnd(byTitle: bool, s: seq<Project>, p: Project, keep: Project -> bool)
    requires Sorted(byTitle, s) && (s == [] || KeyLeq(byTitle, s[|s| - 1], p))
    ensures Insert(byTitle, Filter(s, keep), p) == Filter(s, keep) + [p]
  {
    var kept := Filter(s, keep);
    if kept != [] {
      FilterMembers(s, keep);
      assert kept[|kept| - 1] in s;
      LastIsGreatest(byTitle, s, kept[|kept| - 1]);
      KeyTransitive(byTitle, kept[|kept| - 1], s[|s| - 1], p);
    }
  }

  lemma InsertBefore(byTitle: bool, s: seq<Project>, last: Project, p: Project)
    requires !KeyLeq(byTitle, last, p)
    ensures Insert(byTitle, s + [last], p) == Insert(byTitle, s, p) + [last]
  {
  }

  lemma {:induction false} FilterInsert(byTitle: bool, s: seq<Project>, p: Project, keep: Project -> bool)
    requires Sorted(byTitle, s)
    ensures Filter(Insert(byTitle, s, p), keep)
         == if keep(p) then Insert(byTitle, Filter(s, keep), p) else Filter(s, keep)
  {
    if s == [] || KeyLeq(byTitle, s[|s| - 1], p) {
      FilterAppend(s, p, keep);
      InsertAtEnd(byTitle, s, p, keep);
    } else {
      var rest, last := s[..|s| - 1], s[|s| - 1];
      assert s == rest + [last];
      FilterInsert(byTitle, rest, p, keep);
      FilterAppend(Insert(byTitle, rest, p), last, keep);
      FilterAppend(rest, last, keep);
      if keep(last) { InsertBefore(byTitle, Filter(rest, keep), last, p); }
    }
  }

  /** Sorting stably and filtering commute. */
  lemma {:induction false} FilterSort(byTitle: bool, s: seq<Project>, keep: Project -> bool)
    ensures Filter(StableSort(byTitle, s), keep) == StableSort(byTitle, Filter(s, keep))
  {
    if s != [] {
      var rest, last := s[..|s| - 1], s[|s| - 1];
      FilterSort(byTitle, rest, keep);
      StableSortSorts(byTitle, rest);
      FilterInsert(byTitle, StableSort(byTitle, rest), last, keep);
      if keep(last) { assert Filter(s, keep)[..|Filter(rest, keep)|] == Filter(rest, keep); }
    }
  }

  predicate SameKey(byTitle: bool, p: Project, q: Project) {
    if byTitle then p.title == q.title else p.created == q.created
  }

  lemma InsertTied(byTitle: bool, s: seq<Project>, p: Project, like: Project)
    requires SameKey(byTitle, p, like) && (s == [] || SameKey(byTitle, s[|s| - 1], like))
    ensures Insert(byTitle, s, p) == s + [p]
  {
    KeyTotal(byTitle, p, p);
  }

  /** Rows with the same key stay in the order in which they came. */
  lemma TiesStay(byTitle: bool, s: seq<Project>, like: Project)
    ensures
      var tied := (p: Project) => SameKey(byTitle, p, like);
      Filter(StableSort(byTitle, s), tied) == Filter(s, tied)
  {
    var tied := (p: Project) => SameKey(byTitle, p, like);
    FilterSort(byTitle, s, tied);
    var kept := Filter(s, tied);
    forall i | 0 <= i < |kept| ensures SameKey(byTitle, kept[i], like) {
      FilterMembers(s, tied);
      assert kept[i] in kept;
    }
    TiedUnsorted(byTitle, kept, like);
  }

  lemma SortAppend(byTitle: bool, s: seq<Project>, p: Project)
    ensures StableSort(byTitle, s + [p]) == Insert(byTitle, StableSort(byTitle, s), p)
  {
    assert (s + [p])[..|s|] == s;
  }

  lemma {:induction false} TiedUnsorted(byTitle: bool, s: seq<Project>, like: Project)
    requires forall i :: 0 <= i < |s| ==> SameKey(byTitle, s[i], like)
    ensures StableSort(byTitle, s) == s
  {
    if s != [] {
      var rest, last := s[..|s| - 1], s[|s| - 1];
      TiedUnsorted(byTitle, rest, like);
      SortAppend(byTitle, rest, last);
      InsertTied(byTitle, rest, last, like);
      assert rest + [last] == s;
    }
  }

  /** No two of these projects have the same sort key. */
  ghost predicate NoTies(byTitle: bool, bag: multiset<Project>) {
    forall p, q :: p in bag && q in bag && KeyLeq(byTitle, p, q) && KeyLeq(byTitle, q, p) ==> p == q
  }

  lemma SameLast(byTitle: bool, a: seq<Project>, b: seq<Project>)
    requires Sorted(byTitle, a) && Sorted(byTitle, b) && multiset(a) == multiset(b) && NoTies(byTitle, multiset(a))
    requires a != [] && b != []
    ensures a[|a| - 1] == b[|b| - 1]
  {
    var x, y := a[|a| - 1], b[|b| - 1];
    assert x in multiset(b) && y in multiset(a);
    LastIsGreatest(byTitle, a, y);
    LastIsGreatest(byTitle, b, x);
  }

  lemma DropLast(a: seq<Project>, b: seq<Project>)
    requires multiset(a) == multiset(b) && a != [] && b != [] && a[|a| - 1] == b[|b| - 1]
    ensures multiset(a[..|a| - 1]) == multiset(b[..|b| - 1]) <= multiset(a)
  {
    assert a == a[..|a| - 1] + [a[|a| - 1]] && b == b[..|b| - 1] + [b[|b| - 1]];
    assert multiset(a[..|a| - 1]) == multiset(a) - multiset{a[|a| - 1]};
    assert multiset(b[..|b| - 1]) == multiset(b) - multiset{b[|b| - 1]};
  }

  lemma NoTiesWithin(byTitle: bool, bag: multiset<Project>, less: multiset<Project>)
    requires NoTies(byTitle, bag) && less <= bag
    ensures NoTies(byTitle, less)
  {
  }

  /** Without ties there is only one way to sort. */
  lemma {:induction false} SortedOnce(byTitle: bool, a: seq<Project>, b: seq<Project>)
    requires Sorted(byTitle, a) && Sorted(byTitle, b) && multiset(a) == multiset(b) && NoTies(byTitle, multiset(a))
    ensures a == b
    decreases |a|
  {
    if a == [] || b == [] {
      assert |multiset(a)| == |a| && |multiset(b)| == |b|;
    } else {
      SameLast(byTitle, a, b);
      DropLast(a, b);
      NoTiesWithin(byTitle, multiset(a), multiset(a[..|a| - 1]));
      SortedOnce(byTitle, a[..|a| - 1], b[..|b| - 1]);
    }
  }

  lemma LastIsGreatest(byTitle: bool, s: seq<Project>, p: Project)
    requires Sorted(byTitle, s) && p in s
    ensures KeyLeq(byTitle, p, s[|s| - 1])
  {
    KeyTotal(byTitle, p, p);
  }

  // ---- OFFSET and LIMIT ----

  function Min(a: nat, b: nat): nat {
    if a < b then a else b
  }

  function Offset(page: nat, limit: nat): nat
    requires 1 <= page
  {
    (page - 1) * limit
  }

  function Page(s: seq<Project>, page: nat, limit: nat): seq<Project>
    requires 1 <= page && 1 <= limit
  {
    var start := Offset(page, limit);
    s[Min(start, |s|)..Min(start + limit, |s|)]
  }

  function Pages(s: seq<Project>, n: nat, limit: nat): seq<Project>
    requires 1 <= limit
  {
    if n == 0 then [] else Pages(s, n - 1, limit) + Page(s, n, limit)
  }

  /** Pages 1 to n are the first n * limit rows: none lost, none repeated. */
  lemma {:induction false} PagesAreAPrefix(s: seq<Project>, n: nat, limit: nat)
    requires 1 <= limit
    ensures Pages(s, n, limit) == s[..Min(n * limit, |s|)]
  {
    if n > 0 {
      PagesAreAPrefix(s, n - 1, limit);
      assert (n - 1) * limit + limit == n * limit;
    }
  }

  lemma EnoughPages(n: nat, limit: nat)
    requires 1 <= limit
    ensures n <= (n / limit + 1) * limit
  {
    assert n == limit * (n / limit) + n % limit;
  }

  lemma PagesCover(s: seq<Project>, limit: nat)
    requires 1 <= limit
    ensures Pages(s, |s| / limit + 1, limit) == s
  {
    PagesAreAPrefix(s, |s| / limit + 1, limit);
    EnoughPages(|s|, limit);
  }

  lemma PageInOrder(byTitle: bool, s: seq<Project>, page: nat, limit: nat)
    requires 1 <= page && 1 <= limit && Sorted(byTitle, s)
    ensures InOrder(byTitle, Page(s, page, limit)) && |Page(s, page, limit)| <= limit
    ensures forall p :: p in Page(s, page, limit) ==> p in s
  {
    SortedExactly(byTitle, Page(s, page, limit));
  }

  /** The first page leaves out only what does not come before anything it shows. */
  lemma FirstPage(byTitle: bool, s: seq<Project>, limit: nat, p: Project)
    requires 1 <= limit && Sorted(byTitle, s) && p in s && p !in Page(s, 1, limit)
    ensures |Page(s, 1, limit)| == limit
    ensures forall q :: q in Page(s, 1, limit) ==> NotAfter(byTitle, q, p)
  {
    var out := Page(s, 1, limit);
    assert out == s[..Min(limit, |s|)];
    var j :| 0 <= j < |s| && s[j] == p;
    forall i | 0 <= i < |out| ensures s[i] != p { assert out[i] in out; }
    forall q | q in out ensures NotAfter(byTitle, q, p) {
      var i :| 0 <= i < |out| && out[i] == q;
      assert s[i] == q && i < j;
      KeyExactly(byTitle, q, p);
    }
  }
}
