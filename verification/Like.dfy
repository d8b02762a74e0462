/** Title search: the adapter's ILIKE '%term%', which MySQL runs as LOWER(title) LIKE LOWER(...),
    against the substring test of the in-memory fake. */
module Like {
  import opened Text

  /** SQL LIKE with its default escape character. */
  predicate Matches(pattern: string, s: string)
    decreases |pattern| + |s|
  {
    if pattern == "" then s == ""
    else if pattern[0] == '%' then
      Matches(pattern[1..], s) || (s != "" && Matches(pattern, s[1..]))
    else if pattern[0] == '\\' && |pattern| > 1 then
      s != "" && s[0] == pattern[1] && Matches(pattern[2..], s[1..])
    else
      s != "" && (pattern[0] == '_' || s[0] == pattern[0]) && Matches(pattern[1..], s[1..])
  }

  predicate OccursAt(s: string, term: string, k: nat) {
    k + |term| <= |s| && s[k..k + |term|] == term
  }

  /** Python's `term in s`. */
  predicate Contains(s: string, term: string) {
    exists k: nat :: k <= |s| && OccursAt(s, term, k)
  }

  predicate Special(c: char) {
    c == '%' || c == '_' || c == '\\'
  }

  predicate Plain(term: string) {
    forall i :: 0 <= i < |term| ==> !Special(term[i])
  }

  predicate NoEscape(term: string) {
    '\\' !in term
  }

  function Pattern(term: string): string {
    "%" + term + "%"
  }

  /** The adapter's condition on a title. */
  predicate SqlSearch(term: string, title: string) {
    Matches(Lower(Pattern(term)), Lower(title))
  }

  /** The fake's condition on a title. */
  predicate FakeSearch(term: string, title: string) {
    Contains(Lower(title), Lower(term))
  }

  lemma MatchesAll(s: string)
    ensures Matches("%", s)
  {
  }

  /** What follows the leading % : a prefix match. */
  lemma {:induction false} PrefixMatches(term: string, s: string)
    requires NoEscape(term) && term <= s
    ensures Matches(term + "%", s)
  {
    if term == "" {
      assert term + "%" == "%";
      MatchesAll(s);
    } else {
      assert (term + "%")[1..] == term[1..] + "%";
      PrefixMatches(term[1..], s[1..]);
      if term[0] == '%' { SkipOne(term[1..] + "%", s); }
    }
  }

  lemma SkipOne(rest: string, s: string)
    requires s != "" && Matches(rest, s[1..])
    ensures Matches("%" + rest, s)
  {
  }

  lemma {:induction false} MatchesPrefix(term: string, s: string)
    requires Plain(term) && Matches(term + "%", s)
    ensures term <= s
  {
    if term != "" {
      assert (term + "%")[1..] == term[1..] + "%";
      MatchesPrefix(term[1..], s[1..]);
    }
  }

  lemma {:induction false} LeadingAny(rest: string, s: string)
    ensures Matches("%" + rest, s) <==> exists k :: 0 <= k <= |s| && Matches(rest, s[k..])
  {
    assert ("%" + rest)[1..] == rest && s[0..] == s;
    if s != "" {
      LeadingAny(rest, s[1..]);
      forall k | 0 <= k <= |s| - 1 ensures s[1..][k..] == s[k + 1..] {}
      if k :| 0 <= k <= |s| && Matches(rest, s[k..]) {
        assert k == 0 || s[1..][k - 1..] == s[k..];
      }
    }
  }

  /** A plain term matches exactly the strings that contain it. */
  lemma PlainIsSubstring(term: string, s: string)
    requires Plain(term)
    ensures Matches(Pattern(term), s) <==> Contains(s, term)
  {
    assert Pattern(term) == "%" + (term + "%");
    LeadingAny(term + "%", s);
    if k :| 0 <= k <= |s| && Matches(term + "%", s[k..]) {
      MatchesPrefix(term, s[k..]);
      assert OccursAt(s, term, k);
    }
    SubstringMatches(term, s);
  }

  /** Wildcards only add matches: every title with the term itself is still found. */
  lemma SubstringMatches(term: string, s: string)
    requires NoEscape(term)
    ensures Contains(s, term) ==> Matches(Pattern(term), s)
  {
    assert Pattern(term) == "%" + (term + "%");
    LeadingAny(term + "%", s);
    if k: nat :| OccursAt(s, term, k) {
      assert term <= s[k..];
      PrefixMatches(term, s[k..]);
    }
  }

  /** A string that the pattern matches although it does not contain the term, if any character
      of the term is special: wildcards read as an x, escapes resolved. */
  function Literal(term: string): string
    decreases |term|
  {
    if term == "" then ""
    else if term[0] == '\\' then
      if |term| == 1 then "%" else [term[1]] + Literal(term[2..])
    else [if Special(term[0]) then 'x' else term[0]] + Literal(term[1..])
  }

  lemma {:induction false} LiteralMatches(term: string)
    ensures Matches(term + "%", Literal(term))
    decreases |term|
  {
    if term == "" {
      assert term + "%" == "%";
    } else if term[0] == '\\' {
      if |term| == 1 {
        assert term + "%" == "\\%" && (term + "%")[2..] == "";
      } else {
        assert (term + "%")[2..] == term[2..] + "%";
        assert Literal(term)[1..] == Literal(term[2..]);
        LiteralMatches(term[2..]);
      }
    } else {
      assert (term + "%")[1..] == term[1..] + "%";
      assert Literal(term)[1..] == Literal(term[1..]);
      LiteralMatches(term[1..]);
      if term[0] == '%' {
        assert "%" + (term[1..] + "%") == term + "%";
        SkipOne(term[1..] + "%", Literal(term));
      }
    }
  }

  lemma {:induction false} LiteralShort(term: string)
    ensures |Literal(term)| <= |term|
    ensures !Plain(term) ==> Literal(term) != term
    decreases |term|
  {
    if term == "" {
    } else if term[0] == '\\' {
      if |term| > 1 { LiteralShort(term[2..]); }
    } else {
      LiteralShort(term[1..]);
      assert Literal(term)[1..] == Literal(term[1..]);
      assert Plain(term) <==> !Special(term[0]) && Plain(term[1..]) by {
        assert forall i :: 1 <= i < |term| ==> term[i] == term[1..][i - 1];
      }
    }
  }

  lemma ContainsNoLonger(s: string, term: string)
    requires |s| <= |term|
    ensures Contains(s, term) ==> s == term
  {
  }

  lemma SpecialMisleads(term: string)
    requires !Plain(term)
    ensures Matches(Pattern(term), Literal(term)) && !Contains(Literal(term), term)
  {
    assert Pattern(term) == "%" + (term + "%");
    LiteralMatches(term);
    assert (Pattern(term))[1..] == term + "%";
    LiteralShort(term);
    ContainsNoLonger(Literal(term), term);
  }

  // ---- with case folding ----

  lemma LowerPlain(term: string)
    ensures Plain(Lower(term)) <==> Plain(term)
    ensures Lower(Pattern(term)) == Pattern(Lower(term))
  {
  }

  lemma {:induction false} LiteralLower(term: string)
    ensures Lower(Literal(Lower(term))) == Literal(Lower(term))
    decreases |term|
  {
    LiteralLowered(Lower(term)) by {
      assert forall i :: 0 <= i < |term| ==> LowerChar(Lower(term)[i]) == Lower(term)[i];
    }
  }

  lemma {:induction false} LiteralLowered(t: string)
    requires forall i :: 0 <= i < |t| ==> LowerChar(t[i]) == t[i]
    ensures forall i :: 0 <= i < |Literal(t)| ==> LowerChar(Literal(t)[i]) == Literal(t)[i]
    ensures Lower(Literal(t)) == Literal(t)
    decreases |t|
  {
    if t == "" {
    } else if t[0] == '\\' {
      if |t| > 1 { LiteralLowered(t[2..]); }
    } else {
      LiteralLowered(t[1..]);
    }
  }

  /** The adapter and the fake find the same titles, whatever the titles, if and only if the term
      contains no percent sign, underscore or backslash. */
  lemma SearchAgreesExactly(term: string)
    ensures (forall title :: SqlSearch(term, title) <==> FakeSearch(term, title)) <==> Plain(term)
  {
    LowerPlain(term);
    if Plain(term) {
      forall title ensures SqlSearch(term, title) <==> FakeSearch(term, title) {
        PlainIsSubstring(Lower(term), Lower(title));
      }
    } else {
      var title := Literal(Lower(term));
      LiteralLower(term);
      SpecialMisleads(Lower(term));
      assert SqlSearch(term, title) && !FakeSearch(term, title);
    }
  }

  /** Without a backslash the adapter finds at least what the fake finds. */
  lemma SearchFindsMore(term: string, title: string)
    requires NoEscape(term) && FakeSearch(term, title)
    ensures SqlSearch(term, title)
  {
    LowerPlain(term);
    assert NoEscape(Lower(term));
    SubstringMatches(Lower(term), Lower(title));
  }

  // ---- what is found, on the letters ----

  /** From position k on, the title reads like the term but for the case of letters. */
  ghost predicate ReadsAt(title: string, term: string, k: nat) {
    k + |term| <= |title| && SameButCase(title[k..k + |term|], term)
  }

  lemma OccursLowered(title: string, term: string, k: nat)
    ensures OccursAt(Lower(title), Lower(term), k) <==> ReadsAt(title, term, k)
  {
    if k + |term| <= |title| {
      assert Lower(title)[k..k + |term|] == Lower(title[k..k + |term|]);
      LowerExactly(title[k..k + |term|], term);
    }
  }

  /** The fake finds exactly the titles in which some stretch differs from the term in the case of letters
      only; so does the adapter, if the term has no special characters. */
  lemma SearchExactly(term: string, title: string)
    ensures FakeSearch(term, title) <==> exists k: nat :: ReadsAt(title, term, k)
    ensures Plain(term) ==> (SqlSearch(term, title) <==> exists k: nat :: ReadsAt(title, term, k))
  {
    forall k: nat ensures OccursAt(Lower(title), Lower(term), k) <==> ReadsAt(title, term, k) {
      OccursLowered(title, term, k);
    }
    if k: nat :| ReadsAt(title, term, k) { assert OccursAt(Lower(title), Lower(term), k); }
    SearchAgreesExactly(term);
  }

  /** An underscore stands for any one character. */
  lemma {:induction false} UnderscoreIsAnyOne(pattern: string, s: string)
    requires NoEscape(pattern) && '%' !in pattern
    ensures Matches(pattern, s) <==>
              |pattern| == |s| && forall k :: 0 <= k < |s| ==> pattern[k] == '_' || pattern[k] == s[k]
  {
    if pattern != "" && s != "" {
      UnderscoreIsAnyOne(pattern[1..], s[1..]);
      assert forall k :: 1 <= k < |s| ==> s[k] == s[1..][k - 1];
      assert forall k :: 1 <= k < |pattern| ==> pattern[k] == pattern[1..][k - 1];
    }
  }

  /** After a backslash any character, special or not, stands for itself. */
  lemma EscapedIsItself(c: char, rest: string, s: string)
    ensures Matches("\\" + [c] + rest, s) <==> s != "" && s[0] == c && Matches(rest, s[1..])
  {
    assert ("\\" + [c] + rest)[2..] == rest;
  }
}
