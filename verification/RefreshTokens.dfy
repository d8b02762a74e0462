/** The refresh-token entity, the SQL adapter, its in-memory fake and the use cases, run one at a
    time.  Both repositories are proved against the same functions on the table; ByHash relates
    that table, keyed by id, to the one of the concurrent protocol. */
module RefreshTokens {
  import opened Wrappers
  import opened TokenTable
  import E = Emails

  type Id = nat

  datatype Record = Record(row: Row, hash: Token)

  type Records = map<Id, Record>

  /** The UNIQUE constraint on token_hash. */
  ghost predicate UniqueHashes(t: Records) {
    forall a, b :: a in t && b in t && t[a].hash == t[b].hash ==> a == b
  }

  predicate Matches(r: Record, hash: Token, at: int) {
    r.hash == hash && Active(r.row, at)
  }

  /** Conditional revocation: whatever has this hash and is active is revoked at `at`. */
  function RevokeActive(t: Records, hash: Token, at: int): Records {
    map id | id in t :: if Matches(t[id], hash, at) then SetTime(t[id], at) else t[id]
  }

  function PurgeableIds(t: Records, cutoff: int): set<Id> {
    set id | id in t && Purgeable(t[id].row, cutoff)
  }

  lemma PurgeRemoves(t: Records, cutoff: int)
    ensures t - PurgeableIds(t, cutoff) == Purge(t, cutoff)
    ensures |Purge(t, cutoff)| + |PurgeableIds(t, cutoff)| == |t|
  {
  }

  function SetTime(r: Record, at: int): Record {
    r.(row := r.row.(revoked := Some(at)))
  }

  function Purge(t: Records, cutoff: int): Records {
    map id | id in t && !Purgeable(t[id].row, cutoff) :: t[id]
  }

  /** Logout of a token that is there: the first revocation time is kept. */
  function RevokeOnce(t: Records, id: Id, at: int): Records
    requires id in t
  {
    t[id := SetTime(t[id], RevokedTime(t[id].row.revoked, at))]
  }

  // ---- the entity ----

  class RefreshToken {
    const id: Id
    const user: User
    const hash: Token
    const issued: int
    const expires: int
    var revoked: Option<int>

    constructor (id: Id, r: Record)
      ensures this.id == id && AsRecord() == r
    {
      this.id, user, hash, issued, expires := id, r.row.user, r.hash, r.row.issued, r.row.expires;
      revoked := r.row.revoked;
    }

    function AsRecord(): Record
      reads this
    {
      Record(Row(user, issued, expires, revoked), hash)
    }

    predicate IsActive(at: int)
      reads this
    {
      revoked.None? && at < expires
    }

    /** One way and idempotent: a second revocation does not move the time. */
    method Revoke(at: int)
      modifies this
      ensures revoked == Some(RevokedTime(old(revoked), at))
      ensures old(revoked).Some? ==> revoked == old(revoked)
      ensures AsRecord() == SetTime(old(AsRecord()), RevokedTime(old(revoked), at))
    {
      if revoked.None? { revoked := Some(at); }
    }
  }

  // ---- the SQL adapter: each method is one transaction ----

  class SqlRepository {
    var rows: Records

    constructor ()
      ensures rows == map[] && UniqueHashes(rows)
    {
      rows := map[];
    }

    /** The insert fails on a hash that is already there. */
    method Create(id: Id, user: User, hash: Token, issued: int, expires: int) returns (r: Result<Record, string>)
      requires UniqueHashes(rows) && id !in rows
      modifies this
      ensures UniqueHashes(rows)
      ensures r.Ok? <==> forall a :: a in old(rows) ==> old(rows)[a].hash != hash
      ensures r.Ok? ==> r.value == Record(Row(user, issued, expires, None), hash) && rows == old(rows)[id := r.value]
      ensures r.Err? ==> rows == old(rows)
    {
      if exists a :: a in rows && rows[a].hash == hash {
        return Err("IntegrityError");
      }
      var record := Record(Row(user, issued, expires, None), hash);
      rows := rows[id := record];
      return Ok(record);
    }

    method GetByTokenHash(hash: Token) returns (r: Option<Id>)
      requires UniqueHashes(rows)
      ensures r.Some? ==> r.value in rows && rows[r.value].hash == hash
      ensures r.None? ==> forall a :: a in rows ==> rows[a].hash != hash
    {
      if a :| a in rows && rows[a].hash == hash {
        return Some(a);
      }
      return None;
    }

    /** scalar_one raises when the row has gone. */
    method Save(token: RefreshToken) returns (r: Result<(), string>)
      requires UniqueHashes(rows)
      modifies this
      ensures UniqueHashes(rows)
      ensures r.Ok? <==> token.id in old(rows)
      ensures r.Ok? ==>
                var was := old(rows)[token.id];
                rows == old(rows)[token.id := was.(row := was.row.(revoked := token.revoked))]
      ensures r.Err? ==> rows == old(rows)
    {
      if token.id !in rows {
        return Err("NoResultFound");
      }
      rows := rows[token.id := rows[token.id].(row := rows[token.id].row.(revoked := token.revoked))];
      return Ok(());
    }

    method RevokeIfActive(hash: Token, at: int) returns (r: Option<Id>)
      requires UniqueHashes(rows)
      modifies this
      ensures UniqueHashes(rows)
      ensures rows == RevokeActive(old(rows), hash, at)
      ensures r.Some? ==> r.value in old(rows) && Matches(old(rows)[r.value], hash, at)
      ensures r.None? ==> (forall a :: a in old(rows) ==> !Matches(old(rows)[a], hash, at)) && rows == old(rows)
    {
      if a :| a in rows && Matches(rows[a], hash, at) {
        rows := rows[a := SetTime(rows[a], at)];
        return Some(a);
      }
      return None;
    }

    /** Select the ids, then delete by id: the count is the number of rows removed. */
    method PurgeOlderThan(cutoff: int) returns (count: nat)
      requires UniqueHashes(rows)
      modifies this
      ensures UniqueHashes(rows)
      ensures rows == Purge(old(rows), cutoff)
      ensures |rows| + count == |old(rows)|
    {
      var ids := PurgeableIds(rows, cutoff);
      PurgeRemoves(rows, cutoff);
      if ids == {} {
        return 0;
      }
      rows := rows - ids;
      return |ids|;
    }
  }

  /** The sequence lists the ids, each once. */
  ghost predicate Listing(order: seq<Id>, ids: set<Id>) {
    && (forall i :: 0 <= i < |order| ==> order[i] in ids)
    && (forall id :: id in ids ==> id in order)
    && (forall i, j :: 0 <= i < j < |order| ==> order[i] != order[j])
  }

  lemma ListingWith(order: seq<Id>, ids: set<Id>, id: Id)
    requires Listing(order, ids) && id !in ids
    ensures Listing(order + [id], ids + {id})
  {
  }

  lemma ListingWithout(order: seq<Id>, ids: set<Id>, at: nat)
    requires Listing(order, ids) && at < |order|
    ensures Listing(order[..at] + order[at + 1..], ids - {order[at]})
  {
  }

  function Prefix(ids: seq<Id>, i: nat): set<Id>
    requires i <= |ids|
  {
    set k | 0 <= k < i :: ids[k]
  }

  lemma PrefixNext(order: seq<Id>, ids: set<Id>, i: nat)
    requires i < |order| && Listing(order, ids)
    ensures order[i] in ids && order[i] !in Prefix(order, i)
    ensures Prefix(order, i + 1) == Prefix(order, i) + {order[i]}
  {
  }

  lemma PrefixAll(order: seq<Id>, ids: set<Id>)
    requires Listing(order, ids)
    ensures Prefix(order, |order|) == ids
  {
  }

  // ---- the in-memory fake: a dictionary of entities, scanned in insertion order ----

  class InMemoryRepository {
    var order: seq<Id>
    var tokens: map<Id, RefreshToken>

    ghost predicate Valid()
      reads this
    {
      && Listing(order, tokens.Keys)
      && (forall id :: id in tokens ==> tokens[id].id == id)
    }

    ghost function Tokens(): set<RefreshToken>
      reads this
    {
      set id | id in tokens :: tokens[id]
    }

    ghost function Contents(): Records
      reads this, Tokens()
    {
      map id | id in tokens :: tokens[id].AsRecord()
    }

    constructor ()
      ensures Valid() && fresh(Tokens()) && Contents() == map[]
    {
      order, tokens := [], map[];
    }

    method Create(id: Id, user: User, hash: Token, issued: int, expires: int) returns (token: RefreshToken)
      requires Valid() && id !in tokens
      modifies this
      ensures Valid() && fresh(token) && Tokens() == old(Tokens()) + {token}
      ensures Contents() == old(Contents())[id := Record(Row(user, issued, expires, None), hash)]
    {
      token := new RefreshToken(id, Record(Row(user, issued, expires, None), hash));
      order, tokens := order + [id], tokens[id := token];
      assert tokens[id] == token;
      assert forall a :: a in old(tokens) ==> tokens[a] == old(tokens)[a];
    }

    /** Hands out the stored entity itself, not a copy. */
    method GetByTokenHash(hash: Token) returns (r: RefreshToken?)
      requires Valid()
      ensures r != null ==> r in Tokens() && r.id in tokens && tokens[r.id] == r && r.hash == hash
      ensures r == null ==> forall a :: a in tokens ==> Contents()[a].hash != hash
    {
      for i := 0 to |order|
        invariant forall j :: 0 <= j < i ==> tokens[order[j]].hash != hash
      {
        if tokens[order[i]].hash == hash {
          return tokens[order[i]];
        }
      }
      return null;
    }

    method Replace(token: RefreshToken)
      requires Valid() && token.id in tokens
      modifies this
      ensures Valid() && Tokens() <= old(Tokens()) + {token}
      ensures Contents() == old(Contents())[token.id := token.AsRecord()]
    {
      assert tokens[token.id := token].Keys == tokens.Keys;
      tokens := tokens[token.id := token];
    }

    method Append(token: RefreshToken)
      requires Valid() && token.id !in tokens
      modifies this
      ensures Valid() && Tokens() <= old(Tokens()) + {token}
      ensures Contents() == old(Contents())[token.id := token.AsRecord()]
    {
      ListingWith(order, tokens.Keys, token.id);
      assert tokens[token.id := token].Keys == tokens.Keys + {token.id};
      order, tokens := order + [token.id], tokens[token.id := token];
    }

    /** Stores the entity as it is, and puts back one that has been purged, where the SQL adapter
        raises. */
    method Save(token: RefreshToken)
      requires Valid()
      modifies this
      ensures Valid() && Tokens() <= old(Tokens()) + {token}
      ensures Contents() == old(Contents())[token.id := token.AsRecord()]
    {
      if token.id in tokens { Replace(token); } else { Append(token); }
    }

    /** The scan stops at the first active token with the hash; under unique hashes it does what
        the SQL adapter does. */
    method RevokeIfActive(hash: Token, at: int) returns (r: RefreshToken?)
      requires Valid() && UniqueHashes(Contents())
      modifies Tokens()
      ensures Valid() && tokens == old(tokens) && order == old(order)
      ensures Contents() == RevokeActive(old(Contents()), hash, at)
      ensures r != null ==> r.id in tokens && tokens[r.id] == r && Matches(old(Contents())[r.id], hash, at)
      ensures r == null ==> forall a :: a in tokens ==> !Matches(old(Contents())[a], hash, at)
    {
      for i := 0 to |order|
        invariant forall j :: 0 <= j < i ==> !Matches(tokens[order[j]].AsRecord(), hash, at)
        invariant forall t :: t in Tokens() ==> unchanged(t)
      {
        var token := tokens[order[i]];
        if token.hash == hash && token.IsActive(at) {
          assert Matches(Contents()[token.id], hash, at);
          token.Revoke(at);
          return token;
        }
      }
      return null;
    }

    /** The list comprehension: the ids of the rows to delete. */
    method Doomed(cutoff: int) returns (doomed: seq<Id>)
      requires Valid()
      ensures Listing(doomed, PurgeableIds(Contents(), cutoff))
    {
      doomed := [];
      for i := 0 to |order|
        invariant forall id :: id in doomed <==> id in order[..i] && id in PurgeableIds(Contents(), cutoff)
        invariant forall j, k :: 0 <= j < k < |doomed| ==> doomed[j] != doomed[k]
      {
        assert order[..i + 1] == order[..i] + [order[i]];
        assert order[i] !in order[..i];
        if Purgeable(tokens[order[i]].AsRecord().row, cutoff) {
          doomed := doomed + [order[i]];
        }
      }
      assert order[..|order|] == order;
    }

    method Forget(id: Id)
      requires Valid() && id in tokens
      modifies this
      ensures Valid() && tokens == old(tokens) - {id} && |tokens| == |old(tokens)| - 1
    {
      var at: nat :| at < |order| && order[at] == id;
      ListingWithout(order, tokens.Keys, at);
      assert (tokens - {id}).Keys == tokens.Keys - {id};
      order, tokens := order[..at] + order[at + 1..], tokens - {id};
    }

    method ForgetNext(doomed: seq<Id>, i: nat, ghost ids: set<Id>, ghost all: map<Id, RefreshToken>)
      requires Valid() && i < |doomed| && Listing(doomed, ids) && ids <= all.Keys
      requires tokens == all - Prefix(doomed, i)
      modifies this
      ensures Valid() && tokens == all - Prefix(doomed, i + 1) && |tokens| == |old(tokens)| - 1
    {
      PrefixNext(doomed, ids, i);
      Forget(doomed[i]);
    }

    /** The loop that deletes the ids one by one. */
    method ForgetAll(doomed: seq<Id>, ghost ids: set<Id>)
      requires Valid() && Listing(doomed, ids) && ids <= tokens.Keys
      modifies this
      ensures Valid() && tokens == old(tokens) - ids
      ensures |tokens| + |doomed| == |old(tokens)|
    {
      ghost var all := tokens;
      for i := 0 to |doomed|
        invariant Valid() && |tokens| + i == |all|
        invariant tokens == all - Prefix(doomed, i)
      {
        ForgetNext(doomed, i, ids, all);
      }
      PrefixAll(doomed, ids);
    }

    method Discard(doomed: seq<Id>, ghost ids: set<Id>)
      requires Valid() && Listing(doomed, ids) && ids <= tokens.Keys
      modifies this
      ensures Valid() && |tokens| + |doomed| == |old(tokens)|
      ensures Contents() == old(Contents()) - ids
    {
      ForgetAll(doomed, ids);
    }

    /** First collect the ids, then delete them one by one. */
    method PurgeOlderThan(cutoff: int) returns (count: nat)
      requires Valid()
      modifies this
      ensures Valid()
      ensures Contents() == Purge(old(Contents()), cutoff)
      ensures |tokens| + count == |old(tokens)|
    {
      ghost var ids := PurgeableIds(Contents(), cutoff);
      PurgeRemoves(Contents(), cutoff);
      var doomed := Doomed(cutoff);
      Discard(doomed, ids);
      count := |doomed|;
    }
  }

  // ---- the use cases, each run alone over the SQL adapter ----

  /** LookupError: the users query finds two rows, or one whose email is not one. */
  datatype AuthError = UnauthorizedError | IntegrityError | LookupError

  /** _issue_refresh_token: a new row for a newly generated token. */
  method IssueRefreshToken(repository: SqlRepository, id: Id, hash: Token, user: User, ttl: int, now: int)
    returns (r: Result<Token, AuthError>)
    requires UniqueHashes(repository.rows) && id !in repository.rows
    modifies repository
    ensures UniqueHashes(repository.rows)
    ensures r.Ok? <==> forall a :: a in old(repository.rows) ==> old(repository.rows)[a].hash != hash
    ensures r.Ok? ==>
              && r.value == hash
              && repository.rows == old(repository.rows)[id := Record(Row(user, now, now + ttl, None), hash)]
    ensures r.Err? ==> r.error.IntegrityError? && repository.rows == old(repository.rows)
  {
    var created := repository.Create(id, user, hash, now, now + ttl);
    return if created.Ok? then Ok(hash) else Err(IntegrityError);
  }

  /** The user has this email, is active, and the password is theirs. */
  predicate MayLogIn(u: E.User, email: string, active: set<User>, verified: set<User>) {
    u.email == email && u.id in active && u.id in verified
  }

  /** Login: `verified` says whose password hash the password matches. */
  method Login(repository: SqlRepository, users: seq<E.User>, typed: string, active: set<User>, verified: set<User>,
               id: Id, hash: Token, ttl: int, now: int)
    returns (r: Result<Token, AuthError>)
    requires UniqueHashes(repository.rows) && id !in repository.rows && E.UniqueEmails(users)
    modifies repository
    ensures UniqueHashes(repository.rows)
    // an answer means one new token, of the user whose email was typed
    ensures r.Ok? ==>
              && r.value == hash
              && exists u :: u in users && MayLogIn(u, E.Normalize(typed), active, verified)
                   && repository.rows == old(repository.rows)[id := Record(Row(u.id, now, now + ttl, None), hash)]
    ensures r.Err? ==> repository.rows == old(repository.rows)
    // no such user, a wrong password and an inactive user are refused alike
    ensures r.Err? && r.error.UnauthorizedError? <==>
            && (forall u :: u in users ==> !MayLogIn(u, E.Normalize(typed), active, verified))
            && (forall u :: u in users && u.email == E.Normalize(typed) ==> E.MakeEmail(u.email).Ok?)
    ensures r.Err? && r.error.LookupError? <==>
            exists u :: u in users && u.email == E.Normalize(typed) && E.MakeEmail(u.email).Err?
  {
    var found := E.GetByEmail(users, E.Normalize(typed));
    E.AtMostOneRow(users, E.Normalize(typed));
    match found {
      case NoUser => return Err(UnauthorizedError);
      case Found(u) =>
        if u.id !in active || u.id !in verified { return Err(UnauthorizedError); }
        r := IssueRefreshToken(repository, id, hash, u.id, ttl, now);
      case _ => return Err(LookupError);
    }
  }

  /** Record a is spent, and record id follows it, for the same user. */
  predicate Rotated(t: Records, t': Records, a: Id, presented: Token, now: int, active: set<User>,
                    id: Id, hash: Token, issued: int, ttl: int) {
    && a in t && Matches(t[a], presented, now) && t[a].row.user in active
    && t' == RevokeActive(t, presented, now)[id := Record(Row(t[a].row.user, issued, issued + ttl, None), hash)]
  }

  predicate LoggedOut(t: Records, t': Records, a: Id, presented: Token, caller: User, now: int) {
    && a in t && t[a].hash == presented && t[a].row.user == caller
    && t' == RevokeOnce(t, a, now)
  }

  /** RefreshAccessToken: `active` says which users get_by_id finds active. */
  method Refresh(repository: SqlRepository, presented: Token, now: int, active: set<User>,
                 id: Id, hash: Token, ttl: int, later: int)
    returns (r: Result<Token, AuthError>)
    requires UniqueHashes(repository.rows) && id !in repository.rows
    modifies repository
    ensures UniqueHashes(repository.rows)
    // whatever the answer, the presented token is spent if it was active
    ensures forall a :: a in old(repository.rows) ==>
              && a in repository.rows
              && repository.rows[a] == RevokeActive(old(repository.rows), presented, now)[a]
    // an answer means a new token for the owner of the presented one
    ensures r.Ok? ==>
              && r.value == hash
              && exists a :: Rotated(old(repository.rows), repository.rows, a, presented, now, active, id,
                                     hash, later, ttl)
    ensures r.Err? ==> repository.rows == RevokeActive(old(repository.rows), presented, now)
    ensures r.Err? && r.error.UnauthorizedError? <==>
            forall a :: a in old(repository.rows) && Matches(old(repository.rows)[a], presented, now) ==>
              old(repository.rows)[a].row.user !in active
  {
    ghost var t := repository.rows;
    var token := repository.RevokeIfActive(presented, now);
    if token.None? {
      return Err(UnauthorizedError);
    }
    var user := repository.rows[token.value].row.user;
    if user !in active {
      return Err(UnauthorizedError);
    }
    r := IssueRefreshToken(repository, id, hash, user, ttl, later);
    assert r.Ok? ==> Rotated(t, repository.rows, token.value, presented, now, active, id, hash, later, ttl);
  }

  /** Logout: an unknown token and someone else's are refused alike, and nothing changes. */
  method Logout(repository: SqlRepository, presented: Token, caller: User, now: int)
    returns (r: Result<(), AuthError>)
    requires UniqueHashes(repository.rows)
    modifies repository
    ensures UniqueHashes(repository.rows)
    ensures r.Ok? ==> exists a :: LoggedOut(old(repository.rows), repository.rows, a, presented, caller, now)
    ensures r.Err? ==> r.error.UnauthorizedError? && repository.rows == old(repository.rows)
    ensures r.Err? <==> forall a :: a in old(repository.rows) && old(repository.rows)[a].hash == presented ==>
              old(repository.rows)[a].row.user != caller
  {
    ghost var t := repository.rows;
    var found := repository.GetByTokenHash(presented);
    if found.None? || repository.rows[found.value].row.user != caller {
      return Err(UnauthorizedError);
    }
    var token := new RefreshToken(found.value, repository.rows[found.value]);
    token.Revoke(now);
    var saved := repository.Save(token);
    assert saved.Ok? && LoggedOut(t, repository.rows, found.value, presented, caller, now);
    return Ok(());
  }

  /** PurgeExpiredRefreshTokens: what survives was issued, and if revoked was revoked, late enough. */
  method PurgeExpired(repository: SqlRepository, retention: int, ttl: int, now: int) returns (count: nat)
    requires UniqueHashes(repository.rows)
    modifies repository
    ensures repository.rows == Purge(old(repository.rows), now - retention)
    ensures |repository.rows| + count == |old(repository.rows)|
    ensures forall id | id in repository.rows ::
              var row := repository.rows[id].row;
              row.expires == row.issued + ttl ==> now - (retention + ttl) <= row.issued
    ensures forall id | id in old(repository.rows) ::
              var row := old(repository.rows)[id].row;
              && (id in repository.rows <==>
                    now - retention <= row.expires && (row.revoked.Some? ==> now - retention <= row.revoked.value))
              && (id in repository.rows ==> repository.rows[id] == old(repository.rows)[id])
  {
    count := repository.PurgeOlderThan(now - retention);
  }

  // ---- the table over sequential runs ----

  datatype Operation =
    | Issue(id: Id, record: Record)
    | UseOnce(hash: Token, at: int)
    | Leave(id: Id, at: int)
    | Clean(cutoff: int)

  function Apply(t: Records, op: Operation): Records {
    match op
    case Issue(id, record) => if id in t then t else t[id := record]
    case UseOnce(hash, at) => RevokeActive(t, hash, at)
    case Leave(id, at) => if id in t then RevokeOnce(t, id, at) else t
    case Clean(cutoff) => Purge(t, cutoff)
  }

  function ApplyAll(t: Records, ops: seq<Operation>): Records
    decreases |ops|
  {
    if ops == [] then t else ApplyAll(Apply(t, ops[0]), ops[1..])
  }

  /** Run one at a time, no refresh and no logout ever moves a revocation time. */
  lemma {:induction false} FirstRevocationKept(t: Records, ops: seq<Operation>, id: Id)
    requires id in t && t[id].row.revoked.Some?
    requires id in ApplyAll(t, ops) && forall op :: op in ops && op.Issue? ==> op.id != id
    ensures ApplyAll(t, ops)[id] == t[id]
    decreases |ops|
  {
    if ops != [] {
      if id in Apply(t, ops[0]) {
        FirstRevocationKept(Apply(t, ops[0]), ops[1..], id);
      } else {
        GoneForGood(Apply(t, ops[0]), ops[1..], id);
      }
    }
  }

  lemma {:induction false} GoneForGood(t: Records, ops: seq<Operation>, id: Id)
    requires id !in t && forall op :: op in ops && op.Issue? ==> op.id != id
    ensures id !in ApplyAll(t, ops)
    decreases |ops|
  {
    if ops != [] { GoneForGood(Apply(t, ops[0]), ops[1..], id); }
  }

  /** A later purge makes an earlier one redundant. */
  lemma PurgeTwice(t: Records, c1: int, c2: int)
    requires c1 <= c2
    ensures Purge(Purge(t, c1), c2) == Purge(t, c2)
  {
  }

  // ---- the table of the concurrent protocol is this one, by hash ----

  ghost predicate ByHash(t: Records, rows: Table) {
    && (forall id :: id in t ==> t[id].hash in rows && rows[t[id].hash] == t[id].row)
    && (forall h :: h in rows ==> exists id :: id in t && t[id].hash == h)
  }

  function RevokeUsable(rows: Table, hash: Token, at: int): Table {
    if Usable(rows, hash, at) then SetRevoked(rows, hash, at) else rows
  }

  lemma RevokeById(t: Records, rows: Table, hash: Token, at: int, id: Id)
    requires ByHash(t, rows) && id in t
    ensures
      var r := RevokeActive(t, hash, at)[id];
      r.hash == t[id].hash && r.hash in rows && RevokeUsable(rows, hash, at)[r.hash] == r.row
  {
  }

  /** The adapter's conditional revocation is the protocol's, seen by hash. */
  lemma RevokeByHash(t: Records, rows: Table, hash: Token, at: int)
    requires ByHash(t, rows)
    ensures ByHash(RevokeActive(t, hash, at), RevokeUsable(rows, hash, at))
  {
    var t' := RevokeActive(t, hash, at);
    forall id | id in t' ensures t'[id].hash in rows && RevokeUsable(rows, hash, at)[t'[id].hash] == t'[id].row {
      RevokeById(t, rows, hash, at, id);
    }
    forall h | h in RevokeUsable(rows, hash, at) ensures exists id :: id in t' && t'[id].hash == h {
      var id :| id in t && t[id].hash == h;
      RevokeById(t, rows, hash, at, id);
    }
  }

  lemma UsableByHash(t: Records, rows: Table, hash: Token, at: int)
    requires ByHash(t, rows)
    ensures Usable(rows, hash, at) <==> exists id :: id in t && Matches(t[id], hash, at)
  {
  }

  lemma PurgeByHash(t: Records, rows: Table, cutoff: int)
    requires UniqueHashes(t) && ByHash(t, rows)
    ensures ByHash(Purge(t, cutoff), rows - PurgeableTokens(rows, cutoff))
  {
    var rows' := rows - PurgeableTokens(rows, cutoff);
    forall h | h in rows' ensures exists id :: id in Purge(t, cutoff) && Purge(t, cutoff)[id].hash == h {
      var id :| id in t && t[id].hash == h;
      assert id in Purge(t, cutoff);
    }
  }
}
