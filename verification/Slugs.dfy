/** The Slug value object: three readings of its regular expression. */
module Slugs {
  import opened Regex
  import opened Text
  import opened Wrappers

  predicate Alphanumeric(c: char) {
    'a' <= c <= 'z' || '0' <= c <= '9'
  }

  /** The characters of a segment, one by one. */
  lemma AlphanumericExactly(c: char)
    ensures Alphanumeric(c) <==> c in SMALL || c in "0123456789"
  {
    SmallLetter(c);
    Digit(c);
  }

  lemma Digit(c: char)
    ensures c in "0123456789" <==> '0' <= c <= '9'
  {
    if '0' <= c <= '9' { assert "0123456789"[(c - '0') as nat] == c; }
  }

  predicate Hyphen(c: char) {
    c == '-'
  }

  /** [a-z0-9]+ */
  function Segment(): Regex {
    Plus(One(Alphanumeric))
  }

  /** ^[a-z0-9]+(-[a-z0-9]+)*$ */
  function SlugPattern(): Regex {
    Cat(Start, Cat(Cat(Segment(), Star(Cat(One(Hyphen), Segment()))), End))
  }

  /** Slug.__post_init__ */
  function MakeSlug(value: string): Result<string, ValueError> {
    if FullMatch(SlugPattern(), value) then Ok(value) else Err(ValueError)
  }

  // ---- first reading: no hyphen leads, trails or is doubled ----

  predicate Allowed(c: char) {
    Alphanumeric(c) || Hyphen(c)
  }

  predicate NoDoubles(s: string, i: nat, j: nat)
    requires i <= j <= |s|
  {
    forall k | i <= k && k + 1 < j :: !(s[k] == '-' && s[k + 1] == '-')
  }

  predicate SlugShaped(s: string) {
    && s != "" && AllIn(Allowed, s, 0, |s|)
    && s[0] != '-' && s[|s| - 1] != '-' && NoDoubles(s, 0, |s|)
  }

  /** What may stand from i to j once a segment has ended at i. */
  predicate TailShaped(s: string, i: nat, j: nat)
    requires i <= j <= |s|
  {
    i == j || (AllIn(Allowed, s, i, j) && s[i] == '-' && s[j - 1] != '-' && NoDoubles(s, i, j))
  }

  lemma HyphenSegment(s: string, i: nat, j: nat)
    requires i <= j <= |s|
    ensures MatchAt(Cat(One(Hyphen), Segment()), s, i, j)
       <==> i + 1 < j && s[i] == '-' && AllIn(Alphanumeric, s, i + 1, j)
  {
    CatSplits(One(Hyphen), Segment(), s, i, j);
    if i < j {
      PlusOfOne(Alphanumeric, s, i + 1, j);
      assert SplitsAt(One(Hyphen), Segment(), s, i, i + 1, j) <==>
          i + 1 < j && s[i] == '-' && AllIn(Alphanumeric, s, i + 1, j);
    }
  }

  /** Where the alphanumeric run that starts at i ends. */
  function RunEnd(s: string, i: nat, j: nat): (k: nat)
    requires i <= j <= |s|
    ensures i <= k <= j && AllIn(Alphanumeric, s, i, k)
    ensures k < j ==> !Alphanumeric(s[k])
    decreases j - i
  {
    if i < j && Alphanumeric(s[i]) then RunEnd(s, i + 1, j) else i
  }

  lemma {:induction false} TailMatches(s: string, i: nat, j: nat)
    requires i <= j <= |s|
    ensures MatchAt(Star(Cat(One(Hyphen), Segment())), s, i, j) <==> TailShaped(s, i, j)
    decreases j - i
  {
    var piece := Cat(One(Hyphen), Segment());
    StarSplits(piece, s, i, j);
    forall k | i < k <= j
      ensures SplitsAt(piece, Star(piece), s, i, k, j) <==>
                i + 1 < k && s[i] == '-' && AllIn(Alphanumeric, s, i + 1, k) && TailShaped(s, k, j)
    {
      HyphenSegment(s, i, k);
      TailMatches(s, k, j);
    }
    if i < j && TailShaped(s, i, j) {
      var k := RunEnd(s, i + 1, j);
      assert i + 1 < j && s[i + 1] != '-';
      assert SplitsAt(piece, Star(piece), s, i, k, j);
    } else if i < j && MatchAt(Star(piece), s, i, j) {
      var k :| i < k <= j && SplitsAt(piece, Star(piece), s, i, k, j);
      JoinTail(s, i, k, j);
    }
  }

  lemma JoinTail(s: string, i: nat, k: nat, j: nat)
    requires i + 1 < k <= j <= |s| && s[i] == '-' && AllIn(Alphanumeric, s, i + 1, k) && TailShaped(s, k, j)
    ensures TailShaped(s, i, j)
  {
  }

  lemma UnanchoredSlug(s: string)
    ensures FullMatch(Cat(Segment(), Star(Cat(One(Hyphen), Segment()))), s) <==> SlugShaped(s)
  {
    var tail := Star(Cat(One(Hyphen), Segment()));
    CatSplits(Segment(), tail, s, 0, |s|);
    forall k | 0 <= k <= |s|
      ensures SplitsAt(Segment(), tail, s, 0, k, |s|) <==>
                0 < k && AllIn(Alphanumeric, s, 0, k) && TailShaped(s, k, |s|)
    {
      PlusOfOne(Alphanumeric, s, 0, k);
      TailMatches(s, k, |s|);
    }
    if SlugShaped(s) {
      assert SplitsAt(Segment(), tail, s, 0, RunEnd(s, 0, |s|), |s|);
    }
  }

  /** The pattern accepts exactly the non-empty strings over [a-z0-9-] with no leading, trailing or
      doubled hyphen. */
  lemma SlugExactly(s: string)
    ensures MakeSlug(s) == (if SlugShaped(s) then Ok(s) else Err(ValueError))
  {
    Anchored(Cat(Segment(), Star(Cat(One(Hyphen), Segment()))), s);
    UnanchoredSlug(s);
  }

  // ---- second reading: segments joined by hyphens ----

  /** "-".join(segments) */
  function Join(segments: seq<string>): string {
    if segments == [] then ""
    else if |segments| == 1 then segments[0]
    else segments[0] + "-" + Join(segments[1..])
  }

  /** s.split("-") */
  function Split(s: string): (segments: seq<string>)
    ensures segments != []
  {
    if s == "" then [""]
    else
      var rest := Split(s[1..]);
      if s[0] == '-' then [""] + rest else [[s[0]] + rest[0]] + rest[1..]
  }

  lemma JoinPrepend(c: char, segments: seq<string>)
    requires segments != []
    ensures Join([[c] + segments[0]] + segments[1..]) == [c] + Join(segments)
  {
    var more := [[c] + segments[0]] + segments[1..];
    if |segments| > 1 { assert more[1..] == segments[1..]; }
  }

  lemma {:induction false} JoinOfSplit(s: string)
    ensures Join(Split(s)) == s
  {
    if s != "" {
      JoinOfSplit(s[1..]);
      var rest := Split(s[1..]);
      if s[0] == '-' {
        assert ([""] + rest)[1..] == rest;
        assert s == "" + "-" + s[1..];
      } else {
        JoinPrepend(s[0], rest);
      }
    }
  }

  lemma {:induction false} SplitNoHyphen(s: string)
    requires '-' !in s
    ensures Split(s) == [s]
  {
    if s != "" {
      SplitNoHyphen(s[1..]);
      assert [s[0]] + s[1..] == s;
    }
  }

  lemma {:induction false} SplitAtHyphen(s: string, rest: string)
    requires '-' !in s
    ensures Split(s + "-" + rest) == [s] + Split(rest)
  {
    var whole := s + "-" + rest;
    if s == "" {
      assert whole[1..] == rest;
    } else {
      SplitAtHyphen(s[1..], rest);
      assert whole[1..] == s[1..] + "-" + rest;
      assert [s[0]] + s[1..] == s;
      assert ([s[1..]] + Split(rest))[1..] == Split(rest);
    }
  }

  lemma {:induction false} SplitOfJoin(segments: seq<string>)
    requires segments != [] && forall w :: w in segments ==> '-' !in w
    ensures Split(Join(segments)) == segments
  {
    if |segments| == 1 {
      SplitNoHyphen(segments[0]);
    } else {
      SplitOfJoin(segments[1..]);
      SplitAtHyphen(segments[0], Join(segments[1..]));
    }
  }

  predicate Word(w: string) {
    w != "" && forall c :: c in w ==> Alphanumeric(c)
  }

  predicate Words(segments: seq<string>) {
    segments != [] && forall w :: w in segments ==> Word(w)
  }

  lemma WordShaped(w: string)
    requires Word(w)
    ensures SlugShaped(w)
  {
    forall k | 0 <= k < |w| ensures Alphanumeric(w[k]) {
      assert w[k] in w;
    }
  }

  lemma {:induction false} WordsJoinShaped(segments: seq<string>)
    requires Words(segments)
    ensures SlugShaped(Join(segments))
  {
    var first := segments[0];
    if |segments| == 1 {
      WordShaped(first);
    } else {
      WordsJoinShaped(segments[1..]);
      JoinShaped(first, Join(segments[1..]));
    }
  }

  lemma JoinShaped(first: string, rest: string)
    requires Word(first) && SlugShaped(rest)
    ensures SlugShaped(first + "-" + rest)
  {
    var s := first + "-" + rest;
    forall k | 0 <= k < |s| ensures Allowed(s[k]) && (k < |first| ==> s[k] != '-') {
      if k < |first| { assert first[k] in first; }
    }
    forall k | 0 <= k && k + 1 < |s| ensures !(s[k] == '-' && s[k + 1] == '-') {
      if k > |first| { assert s[k] == rest[k - |first| - 1] && s[k + 1] == rest[k - |first|]; }
    }
  }

  /** Inside a shaped string every segment is a word; a leading hyphen leaves one empty. */
  lemma {:induction false} SplitShaped(s: string)
    requires s != "" && AllIn(Allowed, s, 0, |s|) && s[|s| - 1] != '-' && NoDoubles(s, 0, |s|)
    ensures Words(Split(s)[1..]) || |Split(s)| == 1
    ensures s[0] != '-' ==> Word(Split(s)[0])
    ensures s[0] == '-' ==> |Split(s)| > 1 && Split(s)[0] == ""
  {
    var t := s[1..];
    assert Allowed(s[0]);
    if t == "" {
      assert s == [s[0]] && Split(t) == [""];
    } else {
      assert forall k :: 0 <= k < |t| ==> t[k] == s[k + 1];
      SplitShaped(t);
      var rest := Split(t);
      if s[0] == '-' {
        assert t[0] == s[1] != '-';
        assert Split(s)[1..] == rest && rest == [rest[0]] + rest[1..];
      } else {
        assert Split(s)[0] == [s[0]] + rest[0] && Split(s)[1..] == rest[1..];
      }
    }
  }

  /** A slug is exactly a hyphen-join of alphanumeric words, and its words are those that splitting it
      at its hyphens gives. */
  lemma SlugIsWords(s: string, segments: seq<string>)
    ensures MakeSlug(s).Ok? <==> Words(Split(s))
    ensures Words(segments) && Join(segments) == s <==> MakeSlug(s).Ok? && segments == Split(s)
  {
    SlugExactly(s);
    JoinOfSplit(s);
    if Words(Split(s)) { WordsJoinShaped(Split(s)); }
    if SlugShaped(s) {
      SplitShaped(s);
      assert Split(s) == [Split(s)[0]] + Split(s)[1..];
    }
    if Words(segments) {
      assert forall w :: w in segments ==> Word(w) && '-' !in w;
      SplitOfJoin(segments);
    }
  }
}
