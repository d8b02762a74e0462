/** Pages that are queried one by one: the database may break ties differently for each. */
module Paging {
  import opened Projects

  /** An order that ORDER BY may put the rows of a bag in: ties are left open. */
  ghost predicate Ordering(byTitle: bool, bag: multiset<Project>, full: seq<Project>) {
    multiset(full) == bag && Sorted(byTitle, full)
  }

  ghost predicate PageOf(byTitle: bool, bag: multiset<Project>, page: nat, limit: nat, out: seq<Project>)
    requires 1 <= page && 1 <= limit
  {
    exists full :: Ordering(byTitle, bag, full) && out == Page(full, page, limit)
  }

  /** Answers to the queries for page 1, page 2, and so on, each with an order of its own. */
  ghost predicate Choice(byTitle: bool, bag: multiset<Project>, limit: nat, outs: seq<seq<Project>>)
    requires 1 <= limit
  {
    forall k :: 0 <= k < |outs| ==> PageOf(byTitle, bag, k + 1, limit, outs[k])
  }

  function Concat(outs: seq<seq<Project>>): seq<Project> {
    if outs == [] then [] else Concat(outs[..|outs| - 1]) + outs[|outs| - 1]
  }

  /** No two rows with equal keys stand on either side of the end of a page. */
  ghost predicate Untied(byTitle: bool, full: seq<Project>, limit: nat) {
    forall page: nat | 1 < page :: 0 < Offset(page, limit) < |full| ==>
      !KeyLeq(byTitle, full[Offset(page, limit)], full[Offset(page, limit) - 1])
  }

  // ---- without a tie at m, every order has the same first m rows ----

  lemma {:induction false} FilterCounts(s: seq<Project>, keep: Project -> bool, p: Project)
    ensures multiset(Filter(s, keep))[p] == if keep(p) then multiset(s)[p] else 0
  {
    if s != [] {
      var rest, last := s[..|s| - 1], s[|s| - 1];
      assert s == rest + [last];
      FilterCounts(rest, keep, p);
    }
  }

  lemma {:induction false} FilterAll(s: seq<Project>, keep: Project -> bool)
    requires forall p :: p in s ==> keep(p)
    ensures Filter(s, keep) == s
  {
    if s != [] {
      FilterAll(s[..|s| - 1], keep);
      assert s == s[..|s| - 1] + [s[|s| - 1]];
    }
  }

  /** What is kept of a sorted list, if keeping goes downwards, is a prefix. */
  lemma {:induction false} FilterIsPrefix(s: seq<Project>, keep: Project -> bool)
    requires forall i, j :: 0 <= i < j < |s| && keep(s[j]) ==> keep(s[i])
    ensures |Filter(s, keep)| <= |s| && Filter(s, keep) == s[..|Filter(s, keep)|]
  {
    if s != [] {
      var rest, last := s[..|s| - 1], s[|s| - 1];
      if keep(last) {
        forall p | p in s ensures keep(p) {
          var i :| 0 <= i < |s| && s[i] == p;
          assert i == |s| - 1 || keep(s[i]);
        }
        FilterAll(s, keep);
      } else {
        FilterIsPrefix(rest, keep);
      }
    }
  }

  lemma StrictlyBelow(byTitle: bool, s: seq<Project>, bound: Project, keep: Project -> bool)
    requires Sorted(byTitle, s) && forall p :: keep(p) <==> !KeyLeq(byTitle, bound, p)
    ensures |Filter(s, keep)| <= |s| && Filter(s, keep) == s[..|Filter(s, keep)|]
  {
    forall i, j | 0 <= i < j < |s| && keep(s[j]) ensures keep(s[i]) {
      if KeyLeq(byTitle, bound, s[i]) { KeyTransitive(byTitle, bound, s[i], s[j]); }
    }
    FilterIsPrefix(s, keep);
  }

  lemma {:induction false} FilterCut(s: seq<Project>, keep: Project -> bool, m: nat)
    requires m <= |s| && forall i :: 0 <= i < |s| ==> (keep(s[i]) <==> i < m)
    ensures Filter(s, keep) == s[..m]
  {
    if s != [] {
      var rest, last := s[..|s| - 1], s[|s| - 1];
      if m == |s| {
        FilterCut(rest, keep, m - 1);
        assert s == rest + [last];
      } else {
        FilterCut(rest, keep, m);
      }
    }
  }

  /** If row m is strictly above row m - 1, the first m rows are those strictly below row m. */
  lemma BelowCut(byTitle: bool, s: seq<Project>, m: nat, keep: Project -> bool)
    requires Sorted(byTitle, s) && 0 < m < |s| && !KeyLeq(byTitle, s[m], s[m - 1])
    requires forall p :: keep(p) <==> !KeyLeq(byTitle, s[m], p)
    ensures Filter(s, keep) == s[..m]
  {
    KeyTotal(byTitle, s[m], s[m]);
    forall i | 0 <= i < |s| ensures keep(s[i]) <==> i < m {
      if i < m - 1 && KeyLeq(byTitle, s[m], s[i]) { KeyTransitive(byTitle, s[m], s[i], s[m - 1]); }
    }
    FilterCut(s, keep, m);
  }

  lemma SamePrefix(byTitle: bool, a: seq<Project>, b: seq<Project>, m: nat)
    requires Sorted(byTitle, a) && Sorted(byTitle, b) && multiset(a) == multiset(b)
    requires m <= |a| && (0 < m < |a| ==> !KeyLeq(byTitle, a[m], a[m - 1]))
    ensures m <= |b| && multiset(a[..m]) == multiset(b[..m])
  {
    assert |a| == |multiset(a)| == |multiset(b)| == |b|;
    if m == |a| {
      assert a[..m] == a && b[..m] == b;
    } else if 0 < m {
      var keep := (p: Project) => !KeyLeq(byTitle, a[m], p);
      BelowCut(byTitle, a, m, keep);
      StrictlyBelow(byTitle, b, a[m], keep);
      forall p ensures multiset(Filter(a, keep))[p] == multiset(Filter(b, keep))[p] {
        FilterCounts(a, keep, p);
        FilterCounts(b, keep, p);
      }
      assert multiset(Filter(a, keep)) == multiset(Filter(b, keep));
      assert |Filter(a, keep)| == |multiset(Filter(a, keep))| == |multiset(Filter(b, keep))| == |Filter(b, keep)|;
    }
  }

  // ---- what the pages show ----

  lemma SliceCounts(s: seq<Project>, from: nat, to: nat)
    requires from <= to <= |s|
    ensures multiset(s[..to]) == multiset(s[..from]) + multiset(s[from..to])
  {
    assert s[..to] == s[..from] + s[from..to];
  }

  lemma NextOffset(page: nat, limit: nat)
    requires 1 <= page
    ensures Offset(page + 1, limit) == Offset(page, limit) + limit
  {
  }

  lemma SameSlice(byTitle: bool, a: seq<Project>, b: seq<Project>, from: nat, to: nat)
    requires Sorted(byTitle, a) && Sorted(byTitle, b) && multiset(a) == multiset(b) && from <= to <= |a|
    requires 0 < from < |a| ==> !KeyLeq(byTitle, a[from], a[from - 1])
    requires 0 < to < |a| ==> !KeyLeq(byTitle, a[to], a[to - 1])
    ensures to <= |b| && multiset(b[from..to]) == multiset(a[from..to])
  {
    SamePrefix(byTitle, a, b, from);
    SamePrefix(byTitle, a, b, to);
    SliceCounts(a, from, to);
    SliceCounts(b, from, to);
    assert multiset(a[from..to]) == multiset(a[..to]) - multiset(a[..from]);
    assert multiset(b[from..to]) == multiset(b[..to]) - multiset(b[..from]);
  }

  /** Whatever order it comes from, a page that begins and ends without a tie has the same rows. */
  lemma SamePage(byTitle: bool, a: seq<Project>, b: seq<Project>, page: nat, limit: nat)
    requires Sorted(byTitle, a) && Sorted(byTitle, b) && multiset(a) == multiset(b)
    requires 1 <= page && 1 <= limit && Untied(byTitle, a, limit)
    ensures multiset(Page(b, page, limit)) == multiset(Page(a, page, limit))
  {
    assert |a| == |multiset(a)| == |multiset(b)| == |b|;
    NextOffset(page, limit);
    if page == 1 { assert Offset(page, limit) == 0; }
    var from, to := Min(Offset(page, limit), |a|), Min(Offset(page + 1, limit), |a|);
    SameSlice(byTitle, a, b, from, to);
  }

  lemma {:induction false} UntiedShowsAll(byTitle: bool, full: seq<Project>, limit: nat, outs: seq<seq<Project>>)
    requires 1 <= limit && Sorted(byTitle, full) && Untied(byTitle, full, limit)
    requires Choice(byTitle, multiset(full), limit, outs)
    ensures multiset(Concat(outs)) == multiset(Pages(full, |outs|, limit))
  {
    if outs != [] {
      var front, last := outs[..|outs| - 1], outs[|outs| - 1];
      UntiedShowsAll(byTitle, full, limit, front);
      assert PageOf(byTitle, multiset(full), |outs|, limit, last);
      var other :| Ordering(byTitle, multiset(full), other) && last == Page(other, |outs|, limit);
      SamePage(byTitle, full, other, |outs|, limit);
    }
  }

  // ---- a tie across the end of a page loses a row ----

  /** The order with the rows m - 1 and m exchanged. */
  function Swapped(s: seq<Project>, m: nat): seq<Project>
    requires 0 < m < |s|
  {
    s[..m - 1] + [s[m], s[m - 1]] + s[m + 1..]
  }

  lemma SwapTied(byTitle: bool, s: seq<Project>, m: nat)
    requires Sorted(byTitle, s) && 0 < m < |s| && KeyLeq(byTitle, s[m], s[m - 1])
    ensures Ordering(byTitle, multiset(s), Swapped(s, m))
  {
    var t := Swapped(s, m);
    assert s == s[..m - 1] + [s[m - 1], s[m]] + s[m + 1..];
    forall i, j | 0 <= i < j < |t| ensures KeyLeq(byTitle, t[i], t[j]) {
      var i' := if i == m - 1 then m else if i == m then m - 1 else i;
      var j' := if j == m - 1 then m else if j == m then m - 1 else j;
      assert t[i] == s[i'] && t[j] == s[j'];
    }
  }

  function AllPages(s: seq<Project>, n: nat, limit: nat): (outs: seq<seq<Project>>)
    requires 1 <= limit
    ensures |outs| == n && forall k :: 0 <= k < n ==> outs[k] == Page(s, k + 1, limit)
  {
    seq(n, k requires 0 <= k < n => Page(s, k + 1, limit))
  }

  lemma {:induction false} CountsTwice(outs: seq<seq<Project>>, i: nat, j: nat, p: Project)
    requires i < j < |outs| && p in outs[i] && p in outs[j]
    ensures multiset(Concat(outs))[p] >= 2
  {
    var front := outs[..|outs| - 1];
    if j < |outs| - 1 { CountsTwice(front, i, j, p); } else { CountsOnce(front, i, p); }
  }

  lemma {:induction false} CountsOnce(outs: seq<seq<Project>>, i: nat, p: Project)
    requires i < |outs| && p in outs[i]
    ensures multiset(Concat(outs))[p] >= 1
  {
    if i < |outs| - 1 { CountsOnce(outs[..|outs| - 1], i, p); }
  }

  /** The last row of one page is also the first of the next. */
  lemma ShownTwice(s: seq<Project>, page: nat, limit: nat)
    requires 1 < page && 1 <= limit && 0 < Offset(page, limit) < |s|
    ensures s[Offset(page, limit) - 1] in Page(s, page - 1, limit)
    ensures s[Offset(page, limit) - 1] in Page(Swapped(s, Offset(page, limit)), page, limit)
  {
    var m := Offset(page, limit);
    NextOffset(page - 1, limit);
    var before := Page(s, page - 1, limit);
    assert |before| > 0 && before[|before| - 1] == s[m - 1];
    var behind := Page(Swapped(s, m), page, limit);
    assert |behind| > 0 && behind[0] == s[m - 1];
  }

  lemma TiedLoses(byTitle: bool, full: seq<Project>, limit: nat, n: nat, page: nat) returns (outs: seq<seq<Project>>)
    requires 1 <= limit && Sorted(byTitle, full) && Distinct(full) && 1 < page <= n
    requires 0 < Offset(page, limit) < |full|
    requires KeyLeq(byTitle, full[Offset(page, limit)], full[Offset(page, limit) - 1])
    ensures |outs| == n && Choice(byTitle, multiset(full), limit, outs)
    ensures multiset(Concat(outs)) != multiset(full)
  {
    var m := Offset(page, limit);
    var other := Swapped(full, m);
    SwapTied(byTitle, full, m);
    outs := AllPages(full, n, limit)[page - 1 := Page(other, page, limit)];
    forall k | 0 <= k < n ensures PageOf(byTitle, multiset(full), k + 1, limit, outs[k]) {
      assert Ordering(byTitle, multiset(full), full) && Ordering(byTitle, multiset(full), other);
    }
    ShownTwice(full, page, limit);
    CountsTwice(outs, page - 2, page - 1, full[m - 1]);
    DistinctCounts(full);
  }

  /** Enough pages for all rows. */
  lemma PageInRange(size: nat, page: nat, limit: nat)
    requires 1 <= page && 1 <= limit && Offset(page, limit) < size
    ensures page <= size / limit + 1
  {
    if page > size / limit + 1 {
      EnoughPages(size, limit);
      MoreIsMore(page - 1, size / limit + 1, limit);
    }
  }

  lemma MoreIsMore(a: nat, b: nat, limit: nat)
    requires b <= a
    ensures b * limit <= a * limit
  {
  }

  /** Reading all pages shows every row once, whatever order each page's query chose, if and only if no two
      rows with equal keys stand on either side of the end of a page. */
  lemma PagesShowAllExactly(byTitle: bool, full: seq<Project>, limit: nat)
    requires 1 <= limit && Sorted(byTitle, full) && Distinct(full)
    ensures (forall outs :: |outs| == |full| / limit + 1 && Choice(byTitle, multiset(full), limit, outs) ==>
              multiset(Concat(outs)) == multiset(full))
       <==> Untied(byTitle, full, limit)
  {
    var n := |full| / limit + 1;
    if Untied(byTitle, full, limit) {
      forall outs | |outs| == n && Choice(byTitle, multiset(full), limit, outs)
        ensures multiset(Concat(outs)) == multiset(full)
      {
        UntiedShowsAll(byTitle, full, limit, outs);
        PagesCover(full, limit);
      }
    } else {
      var page: nat :| 1 < page && 0 < Offset(page, limit) < |full|
        && KeyLeq(byTitle, full[Offset(page, limit)], full[Offset(page, limit) - 1]);
      PageInRange(|full|, page, limit);
      var outs := TiedLoses(byTitle, full, limit, n, page);
    }
  }

  lemma {:induction false} OneOrderShowsAll(byTitle: bool, full: seq<Project>, limit: nat, outs: seq<seq<Project>>)
    requires 1 <= limit && Sorted(byTitle, full) && NoTies(byTitle, multiset(full))
    requires Choice(byTitle, multiset(full), limit, outs)
    ensures Concat(outs) == Pages(full, |outs|, limit)
  {
    if outs != [] {
      var front, last := outs[..|outs| - 1], outs[|outs| - 1];
      OneOrderShowsAll(byTitle, full, limit, front);
      assert PageOf(byTitle, multiset(full), |outs|, limit, last);
      var other :| Ordering(byTitle, multiset(full), other) && last == Page(other, |outs|, limit);
      SortedOnce(byTitle, full, other);
    }
  }

  lemma FirstOfTwo(byTitle: bool, a: Project, b: Project)
    requires KeyLeq(byTitle, a, b)
    ensures PageOf(byTitle, multiset{a, b}, 1, 1, [a]) && PageOf(byTitle, multiset{a, b}, 2, 1, [b])
  {
    var full := [a, b];
    assert Ordering(byTitle, multiset{a, b}, full) && Page(full, 1, 1) == [a] && Page(full, 2, 1) == [b];
  }

  /** Two projects with equal keys, on pages of one: the first may be shown twice, and the second not. */
  lemma TwoTied(byTitle: bool, a: Project, b: Project)
    requires a != b && KeyLeq(byTitle, a, b) && KeyLeq(byTitle, b, a)
    ensures Choice(byTitle, multiset{a, b}, 1, [[a], [a]]) && b !in Concat([[a], [a]])
  {
    FirstOfTwo(byTitle, a, b);
    FirstOfTwo(byTitle, b, a);
    assert multiset{a, b} == multiset{b, a};
    var outs, alone := [[a], [a]], [[a]];
    assert alone[..0] == [] && Concat(alone) == [a];
    assert outs[..1] == alone && Concat(outs) == [a] + [a];
  }
}
