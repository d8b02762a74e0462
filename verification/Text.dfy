/** Case folding, on ASCII letters. */
module Text {

  function LowerChar(c: char): char {
    if 'A' <= c <= 'Z' then c - 'A' + 'a' else c
  }

  /** str.lower, and the database's LOWER. */
  function Lower(s: string): (r: string)
    ensures |r| == |s|
    ensures forall i :: 0 <= i < |s| ==> r[i] == LowerChar(s[i])
  {
    if s == "" then "" else [LowerChar(s[0])] + Lower(s[1..])
  }

  // ---- what lowering means, letter by letter ----

  const CAPITALS := "ABCDEFGHIJKLMNOPQRSTUVWXYZ"
  const SMALL := "abcdefghijklmnopqrstuvwxyz"

  /** The same character, or a capital and its small letter in either order. */
  ghost predicate SameLetter(a: char, b: char) {
    a == b || exists k :: 0 <= k < 26 && ((a == CAPITALS[k] && b == SMALL[k]) || (a == SMALL[k] && b == CAPITALS[k]))
  }

  /** The same characters but for the case of their letters. */
  ghost predicate SameButCase(a: string, b: string) {
    |a| == |b| && forall k :: 0 <= k < |a| ==> SameLetter(a[k], b[k])
  }

  ghost predicate NoCapitals(s: string) {
    forall k :: 0 <= k < |s| ==> s[k] !in CAPITALS
  }

  lemma Alphabet(k: nat)
    requires k < 26
    ensures CAPITALS[k] == 'A' + k as char && SMALL[k] == 'a' + k as char
  {
  }

  lemma SmallLetter(c: char)
    ensures c in SMALL <==> 'a' <= c <= 'z'
  {
    if k: nat :| k < 26 && SMALL[k] == c { Alphabet(k); }
    if 'a' <= c <= 'z' {
      var k := (c - 'a') as nat;
      Alphabet(k);
      assert SMALL[k] == c;
    }
  }

  lemma CapitalPairs(c: char)
    requires 'A' <= c <= 'Z'
    ensures c in CAPITALS && SameLetter(c, LowerChar(c)) && SameLetter(LowerChar(c), c)
  {
    var k := (c - 'A') as nat;
    Alphabet(k);
    assert CAPITALS[k] == c && SMALL[k] == LowerChar(c);
  }

  lemma Capital(c: char)
    ensures c in CAPITALS <==> 'A' <= c <= 'Z'
  {
    if k: nat :| k < 26 && CAPITALS[k] == c { Alphabet(k); }
    if 'A' <= c <= 'Z' { CapitalPairs(c); }
  }

  lemma LowerPairs(c: char)
    ensures LowerChar(c) !in CAPITALS && SameLetter(c, LowerChar(c))
    ensures c !in CAPITALS <==> LowerChar(c) == c
  {
    Capital(c);
    Capital(LowerChar(c));
    if 'A' <= c <= 'Z' { CapitalPairs(c); }
  }

  lemma PairLowers(a: char, b: char, k: nat)
    requires k < 26 && a == CAPITALS[k] && b == SMALL[k]
    ensures LowerChar(a) == LowerChar(b)
  {
    Alphabet(k);
  }

  lemma SameLetterLowers(a: char, b: char)
    ensures SameLetter(a, b) <==> LowerChar(a) == LowerChar(b)
  {
    if SameLetter(a, b) && a != b {
      var k: nat :| k < 26 && ((a == CAPITALS[k] && b == SMALL[k]) || (a == SMALL[k] && b == CAPITALS[k]));
      if a == CAPITALS[k] && b == SMALL[k] { PairLowers(a, b, k); } else { PairLowers(b, a, k); }
    }
    if LowerChar(a) == LowerChar(b) && a != b {
      if 'A' <= a <= 'Z' { CapitalPairs(a); } else { CapitalPairs(b); }
    }
  }

  /** Lowering leaves no capital, changes nothing but case, and makes equal exactly what differs in case only. */
  lemma LowerExactly(a: string, b: string)
    ensures NoCapitals(Lower(a)) && SameButCase(a, Lower(a))
    ensures NoCapitals(a) <==> Lower(a) == a
    ensures Lower(a) == Lower(b) <==> SameButCase(a, b)
  {
    forall k | 0 <= k < |a| ensures Lower(a)[k] !in CAPITALS && SameLetter(a[k], Lower(a)[k]) { LowerPairs(a[k]); }
    forall k | 0 <= k < |a| ensures a[k] !in CAPITALS <==> Lower(a)[k] == a[k] { LowerPairs(a[k]); }
    if |a| == |b| {
      forall k | 0 <= k < |a| ensures SameLetter(a[k], b[k]) <==> Lower(a)[k] == Lower(b)[k] {
        SameLetterLowers(a[k], b[k]);
      }
    }
  }
}
