/** The refresh_tokens table: its rows and the predicates its queries use.

    A token stands for the hash of a raw refresh token.  Hashing is injective and the
    column is UNIQUE, so the hash identifies the row as well as its primary key does. */
module TokenTable {
  import opened Wrappers

  type Token = nat
  type User = nat

  datatype Row = Row(user: User, issued: int, expires: int, revoked: Option<int>)

  type Table = map<Token, Row>

  /** Unrevoked, and not yet expired at `at`. */
  predicate Active(row: Row, at: int) {
    row.revoked.None? && at < row.expires
  }

  /** A purge with this cutoff takes the row. */
  predicate Purgeable(row: Row, cutoff: int) {
    || row.expires < cutoff
    || (row.revoked.Some? && row.revoked.value < cutoff)
  }

  /** The entity's revoke: the first revocation time is kept. */
  function RevokedTime(revoked: Option<int>, at: int): int {
    if revoked.None? then at else revoked.value
  }

  /** The locking select of revoke_if_active finds a row. */
  predicate Usable(rows: Table, token: Token, at: int) {
    token in rows && Active(rows[token], at)
  }

  function SetRevoked(rows: Table, token: Token, at: int): Table
    requires token in rows
  {
    rows[token := rows[token].(revoked := Some(at))]
  }

  function PurgeableTokens(rows: Table, cutoff: int): set<Token> {
    set t | t in rows && Purgeable(rows[t], cutoff)
  }
}
