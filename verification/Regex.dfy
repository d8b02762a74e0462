/** The part of Python's re that the value objects use, matching between two positions of a string. */
module Regex {

  datatype Regex =
    | Start
    | End
    | One(member: char -> bool)
    | Cat(first: Regex, second: Regex)
    | Star(body: Regex)

  function Plus(body: Regex): Regex {
    Cat(body, Star(body))
  }

  /** `$` is satisfied at the end, and just before a newline at the end. */
  predicate AtEnd(s: string, i: nat) {
    i == |s| || (i + 1 == |s| && s[i] == '\n')
  }

  /** r matches s from i to j. */
  predicate MatchAt(r: Regex, s: string, i: nat, j: nat)
    requires i <= j <= |s|
    decreases r, j - i, |s| + 1
  {
    match r
    case Start => i == 0 && j == i
    case End => AtEnd(s, i) && j == i
    case One(member) => j == i + 1 && member(s[i])
    case Cat(first, second) => CatFrom(first, second, s, i, i, j)
    case Star(body) => i == j || StarFrom(body, s, i, i + 1, j)
  }

  /** Some position from k on ends the first part. */
  predicate CatFrom(first: Regex, second: Regex, s: string, i: nat, k: nat, j: nat)
    requires i <= k <= j <= |s|
    decreases Cat(first, second), j - i, j - k
  {
    || (MatchAt(first, s, i, k) && MatchAt(second, s, k, j))
    || (k < j && CatFrom(first, second, s, i, k + 1, j))
  }

  /** Some position from k on ends the first round. */
  predicate StarFrom(body: Regex, s: string, i: nat, k: nat, j: nat)
    requires i < k <= j <= |s|
    decreases Star(body), j - i, j - k
  {
    || (MatchAt(body, s, i, k) && MatchAt(Star(body), s, k, j))
    || (k < j && StarFrom(body, s, i, k + 1, j))
  }

  /** The first part ends, and the second begins, at k. */
  predicate SplitsAt(first: Regex, second: Regex, s: string, i: nat, k: nat, j: nat)
    requires i <= j <= |s|
  {
    i <= k <= j && MatchAt(first, s, i, k) && MatchAt(second, s, k, j)
  }

  lemma {:induction false} CatScans(first: Regex, second: Regex, s: string, i: nat, k: nat, j: nat)
    requires i <= k <= j <= |s|
    ensures CatFrom(first, second, s, i, k, j) <==> exists m | k <= m <= j :: SplitsAt(first, second, s, i, m, j)
    decreases j - k
  {
    if k < j { CatScans(first, second, s, i, k + 1, j); }
    assert CatFrom(first, second, s, i, k, j) <==>
        SplitsAt(first, second, s, i, k, j) || (k < j && CatFrom(first, second, s, i, k + 1, j));
  }

  lemma {:induction false} StarScans(body: Regex, s: string, i: nat, k: nat, j: nat)
    requires i < k <= j <= |s|
    ensures StarFrom(body, s, i, k, j) <==> exists m | k <= m <= j :: SplitsAt(body, Star(body), s, i, m, j)
    decreases j - k
  {
    if k < j { StarScans(body, s, i, k + 1, j); }
    assert StarFrom(body, s, i, k, j) <==>
        SplitsAt(body, Star(body), s, i, k, j) || (k < j && StarFrom(body, s, i, k + 1, j));
  }

  lemma CatSplits(first: Regex, second: Regex, s: string, i: nat, j: nat)
    requires i <= j <= |s|
    ensures MatchAt(Cat(first, second), s, i, j) <==> exists k | i <= k <= j :: SplitsAt(first, second, s, i, k, j)
  {
    CatScans(first, second, s, i, i, j);
  }

  lemma StarSplits(body: Regex, s: string, i: nat, j: nat)
    requires i <= j <= |s|
    ensures MatchAt(Star(body), s, i, j) <==>
              i == j || exists k | i < k <= j :: SplitsAt(body, Star(body), s, i, k, j)
  {
    if i < j { StarScans(body, s, i, i + 1, j); }
  }

  predicate FullMatch(r: Regex, s: string) {
    MatchAt(r, s, 0, |s|)
  }

  predicate AllIn(member: char -> bool, s: string, i: nat, j: nat)
    requires i <= j <= |s|
  {
    forall k | i <= k < j :: member(s[k])
  }

  lemma {:induction false} StarOfOne(member: char -> bool, s: string, i: nat, j: nat)
    requires i <= j <= |s|
    ensures MatchAt(Star(One(member)), s, i, j) <==> AllIn(member, s, i, j)
    decreases j - i
  {
    StarSplits(One(member), s, i, j);
    if i < j {
      StarOfOne(member, s, i + 1, j);
      if AllIn(member, s, i, j) { assert SplitsAt(One(member), Star(One(member)), s, i, i + 1, j); }
    }
  }

  lemma PlusOfOne(member: char -> bool, s: string, i: nat, j: nat)
    requires i <= j <= |s|
    ensures MatchAt(Plus(One(member)), s, i, j) <==> i < j && AllIn(member, s, i, j)
  {
    CatSplits(One(member), Star(One(member)), s, i, j);
    if i < j {
      StarOfOne(member, s, i + 1, j);
      if AllIn(member, s, i, j) { assert SplitsAt(One(member), Star(One(member)), s, i, i + 1, j); }
    }
  }

  /** Under fullmatch the anchors at the two ends change nothing: a newline at the end is not skipped. */
  lemma Anchored(r: Regex, s: string)
    ensures FullMatch(Cat(Start, Cat(r, End)), s) <==> FullMatch(r, s)
  {
    CatSplits(Start, Cat(r, End), s, 0, |s|);
    CatSplits(r, End, s, 0, |s|);
    if FullMatch(r, s) {
      assert SplitsAt(r, End, s, 0, |s|, |s|);
      assert SplitsAt(Start, Cat(r, End), s, 0, 0, |s|);
    }
  }
}
