/** The Email value object, and the lookup that Login does with what the caller typed. */
module Emails {
  import opened Regex
  import opened Text
  import opened Wrappers

  // ---- str.strip().lower() ----

  /** str.isspace, which is also the class \s. */
  predicate IsSpace(c: char) {
    var k := c as int;
    || 9 <= k <= 13 || 28 <= k <= 32 || k == 133 || k == 160 || k == 5760
    || 8192 <= k <= 8202 || k == 8232 || k == 8233 || k == 8239 || k == 8287 || k == 12288
  }

  const SPACES :=
    "\t\n\U{0B}\U{0C}\r\U{1C}\U{1D}\U{1E}\U{1F} \U{85}\U{A0}\U{1680}"
    + "\U{2000}\U{2001}\U{2002}\U{2003}\U{2004}\U{2005}\U{2006}\U{2007}\U{2008}\U{2009}\U{200A}"
    + "\U{2028}\U{2029}\U{202F}\U{205F}\U{3000}"

  /** The characters that Unicode counts as white space or separators, one by one. */
  lemma SpacesExactly(c: char)
    ensures IsSpace(c) <==> c in SPACES
  {
  }

  function StripLeft(s: string): string {
    if s != "" && IsSpace(s[0]) then StripLeft(s[1..]) else s
  }

  function StripRight(s: string): string {
    if s != "" && IsSpace(s[|s| - 1]) then StripRight(s[..|s| - 1]) else s
  }

  function Normalize(s: string): string {
    Lower(StripRight(StripLeft(s)))
  }

  predicate Trimmed(s: string) {
    s == "" || (!IsSpace(s[0]) && !IsSpace(s[|s| - 1]))
  }

  lemma {:induction false} StripLeftTrims(s: string)
    ensures StripLeft(s) == "" || !IsSpace(StripLeft(s)[0])
  {
    if s != "" && IsSpace(s[0]) { StripLeftTrims(s[1..]); }
  }

  lemma {:induction false} StripRightTrims(s: string)
    ensures StripRight(s) <= s
    ensures StripRight(s) == "" || !IsSpace(StripRight(s)[|StripRight(s)| - 1])
  {
    if s != "" && IsSpace(s[|s| - 1]) { StripRightTrims(s[..|s| - 1]); }
  }

  lemma StripTrims(s: string)
    ensures Trimmed(StripRight(StripLeft(s)))
  {
    StripLeftTrims(s);
    StripRightTrims(StripLeft(s));
  }

  lemma LowerKeepsSpaces(s: string)
    requires Trimmed(s)
    ensures Trimmed(Lower(s)) && Lower(Lower(s)) == Lower(s)
  {
    assert forall c :: IsSpace(LowerChar(c)) <==> IsSpace(c);
  }

  lemma StripOfTrimmed(s: string)
    requires Trimmed(s)
    ensures StripRight(StripLeft(s)) == s
  {
  }

  lemma NormalizeTwice(s: string)
    ensures Normalize(Normalize(s)) == Normalize(s) && Trimmed(Normalize(s)) && NoCapitals(Normalize(s))
  {
    var core := StripRight(StripLeft(s));
    StripTrims(s);
    LowerKeepsSpaces(core);
    StripOfTrimmed(Lower(core));
    LowerExactly(core, core);
  }

  /** The normal forms are exactly the strings without a space at either end and without a capital. */
  lemma NormalFormExactly(s: string)
    ensures Normalize(s) == s <==> Trimmed(s) && NoCapitals(s)
  {
    NormalizeTwice(s);
    if Trimmed(s) {
      StripOfTrimmed(s);
      LowerExactly(s, s);
    }
  }

  lemma {:induction false} StripLeftDrops(space: string, s: string)
    requires (forall c :: c in space ==> IsSpace(c)) && (s == "" || !IsSpace(s[0]))
    ensures StripLeft(space + s) == s
  {
    if space == "" {
      assert space + s == s;
    } else {
      assert space[0] in space && (space + s)[1..] == space[1..] + s;
      StripLeftDrops(space[1..], s);
    }
  }

  lemma {:induction false} StripRightDrops(s: string, space: string)
    requires (forall c :: c in space ==> IsSpace(c)) && (s == "" || !IsSpace(s[|s| - 1]))
    ensures StripRight(s + space) == s
  {
    if space == "" {
      assert s + space == s;
    } else {
      var whole := s + space;
      assert space[|space| - 1] in space && whole[..|whole| - 1] == s + space[..|space| - 1];
      StripRightDrops(s, space[..|space| - 1]);
    }
  }

  /** Surrounding space and capitals do not count, and nothing else is forgiven. */
  lemma SpellingsAgree(before: string, core: string, behind: string, other: string)
    requires core != "" && Trimmed(core) && Trimmed(other)
    requires forall c :: c in before || c in behind ==> IsSpace(c)
    ensures Normalize(before + core + behind) == Normalize(other) <==> SameButCase(core, other)
  {
    assert before + core + behind == before + (core + behind);
    StripLeftDrops(before, core + behind);
    StripRightDrops(core, behind);
    assert Normalize(before + core + behind) == Lower(core);
    assert Normalize(other) == Lower(other);
    LowerExactly(core, other);
  }

  // ---- the pattern ----

  /** [^@\s] */
  predicate Plain(c: char) {
    c != '@' && !IsSpace(c)
  }

  predicate At(c: char) {
    c == '@'
  }

  predicate Dot(c: char) {
    c == '.'
  }

  function Part(): Regex {
    Plus(One(Plain))
  }

  function Domain(): Regex {
    Cat(Part(), Cat(One(Dot), Part()))
  }

  function Address(): Regex {
    Cat(Part(), Cat(One(At), Domain()))
  }

  /** ^[^@\s]+@[^@\s]+\.[^@\s]+$ */
  function EmailPattern(): Regex {
    Cat(Start, Cat(Address(), End))
  }

  /** Email.__post_init__ */
  function MakeEmail(value: string): Result<string, ValueError> {
    var normalized := Normalize(value);
    if FullMatch(EmailPattern(), normalized) then Ok(normalized) else Err(ValueError)
  }

  lemma AfterOne(member: char -> bool, rest: Regex, s: string, i: nat, j: nat)
    requires i <= j <= |s|
    ensures MatchAt(Cat(One(member), rest), s, i, j) <==>
              i < j && member(s[i]) && MatchAt(rest, s, i + 1, j)
  {
    CatSplits(One(member), rest, s, i, j);
    if i < j {
      assert SplitsAt(One(member), rest, s, i, i + 1, j) <==> member(s[i]) && MatchAt(rest, s, i + 1, j);
    }
  }

  /** A dot with something on either side, and no space or @ between i and j. */
  predicate DomainShaped(s: string, i: nat, j: nat)
    requires i <= j <= |s|
  {
    AllIn(Plain, s, i, j) && exists d :: i < d < j - 1 && s[d] == '.'
  }

  lemma DomainMatches(s: string, i: nat, j: nat)
    requires i <= j <= |s|
    ensures MatchAt(Domain(), s, i, j) <==> DomainShaped(s, i, j)
  {
    var tail := Cat(One(Dot), Part());
    CatSplits(Part(), tail, s, i, j);
    forall d | i <= d <= j
      ensures SplitsAt(Part(), tail, s, i, d, j) <==> i < d < j - 1 && s[d] == '.' && AllIn(Plain, s, i, j)
    {
      PlusOfOne(Plain, s, i, d);
      AfterOne(Dot, Part(), s, d, j);
      if d < j { PlusOfOne(Plain, s, d + 1, j); }
    }
    if DomainShaped(s, i, j) {
      var d :| i < d < j - 1 && s[d] == '.';
      assert SplitsAt(Part(), tail, s, i, d, j);
    }
  }

  /** The @ stands at a. */
  predicate AddressAt(s: string, a: nat) {
    0 < a < |s| && s[a] == '@' && AllIn(Plain, s, 0, a) && DomainShaped(s, a + 1, |s|)
  }

  lemma AddressMatches(s: string)
    ensures FullMatch(Address(), s) <==> exists a :: AddressAt(s, a)
  {
    var tail := Cat(One(At), Domain());
    CatSplits(Part(), tail, s, 0, |s|);
    forall a | 0 <= a <= |s|
      ensures SplitsAt(Part(), tail, s, 0, a, |s|) <==> AddressAt(s, a)
    {
      PlusOfOne(Plain, s, 0, a);
      AfterOne(At, Domain(), s, a, |s|);
      if a < |s| { DomainMatches(s, a + 1, |s|); }
    }
    if a :| AddressAt(s, a) { assert SplitsAt(Part(), tail, s, 0, a, |s|); }
  }

  /** No space, one @, a local part that is not empty, and a domain that has a dot which is neither its
      first nor its last character. */
  predicate EmailShaped(s: string) {
    && (forall k :: 0 <= k < |s| ==> !IsSpace(s[k]))
    && exists a :: 0 < a < |s| && OnlyAt(s, a) && InnerDot(s[a + 1..])
  }

  predicate OnlyAt(s: string, a: nat) {
    a < |s| && forall k :: 0 <= k < |s| ==> (s[k] == '@' <==> k == a)
  }

  predicate InnerDot(domain: string) {
    exists d :: 0 < d < |domain| - 1 && domain[d] == '.'
  }

  lemma AddressAtShaped(s: string, a: nat)
    ensures AddressAt(s, a) <==>
              (forall k :: 0 <= k < |s| ==> !IsSpace(s[k])) && 0 < a < |s| && OnlyAt(s, a) && InnerDot(s[a + 1..])
  {
  }

  lemma EmailExactly(value: string)
    ensures MakeEmail(value) == (if EmailShaped(Normalize(value)) then Ok(Normalize(value)) else Err(ValueError))
  {
    var s := Normalize(value);
    Anchored(Address(), s);
    AddressMatches(s);
    forall a: nat ensures AddressAt(s, a) <==>
        (forall k :: 0 <= k < |s| ==> !IsSpace(s[k])) && 0 < a < |s| && OnlyAt(s, a) && InnerDot(s[a + 1..])
    {
      AddressAtShaped(s, a);
    }
  }

  /** An email built from an email is the same email. */
  lemma EmailTwice(value: string)
    ensures MakeEmail(Normalize(value)) == MakeEmail(value)
    ensures MakeEmail(value).Ok? ==> MakeEmail(MakeEmail(value).value) == MakeEmail(value)
  {
    NormalizeTwice(value);
  }

  // ---- Login's lookup ----

  datatype User = User(id: nat, email: string)

  datatype Lookup = Found(user: User) | NoUser | MultipleResultsFound | InvalidStoredEmail

  /** users.email is unique. */
  ghost predicate UniqueEmails(users: seq<User>) {
    forall i, j :: 0 <= i < j < |users| ==> users[i].email != users[j].email
  }

  function WithEmail(users: seq<User>, email: string): seq<User> {
    if users == [] then []
    else (if users[0].email == email then [users[0]] else []) + WithEmail(users[1..], email)
  }

  /** get_by_email: the row becomes an entity, whose email is validated again. */
  function GetByEmail(users: seq<User>, email: string): Lookup {
    var rows := WithEmail(users, email);
    if |rows| > 1 then MultipleResultsFound
    else if rows == [] then NoUser
    else if MakeEmail(rows[0].email).Err? then InvalidStoredEmail
    else Found(rows[0])
  }

  lemma {:induction false} AtMostOneRow(users: seq<User>, email: string)
    requires UniqueEmails(users)
    ensures |WithEmail(users, email)| <= 1
    ensures forall u :: u in WithEmail(users, email) <==> u in users && u.email == email
  {
    if users != [] {
      AtMostOneRow(users[1..], email);
      assert users == [users[0]] + users[1..];
      var more := WithEmail(users[1..], email);
      assert forall u :: u in users[1..] ==> u.email != users[0].email;
      assert more == [] || more[0] in more;
    }
  }

  /** A user stored under one spelling is found under exactly the spellings with the same normal form. */
  lemma LoginFindsEverySpelling(users: seq<User>, u: User, spelling: string, typed: string)
    requires UniqueEmails(users) && u in users && MakeEmail(spelling) == Ok(u.email)
    ensures GetByEmail(users, Normalize(typed)) == Found(u) <==> Normalize(typed) == Normalize(spelling)
  {
    AtMostOneRow(users, Normalize(typed));
    EmailTwice(spelling);
    var rows := WithEmail(users, Normalize(typed));
    if Normalize(typed) == Normalize(spelling) {
      assert u in rows;
      assert rows == [u];
    }
  }

  /** A user stored under an email without capitals is found under exactly the spellings that differ from
      it in surrounding space and in the case of letters. */
  lemma FoundWhateverTheCase(users: seq<User>, u: User, before: string, core: string, behind: string)
    requires UniqueEmails(users) && u in users
    requires Trimmed(u.email) && NoCapitals(u.email) && EmailShaped(u.email)
    requires core != "" && Trimmed(core) && forall c :: c in before || c in behind ==> IsSpace(c)
    ensures GetByEmail(users, Normalize(before + core + behind)) == Found(u) <==> SameButCase(core, u.email)
  {
    NormalFormExactly(u.email);
    EmailExactly(u.email);
    LoginFindsEverySpelling(users, u, u.email, before + core + behind);
    SpellingsAgree(before, core, behind, u.email);
  }
}
