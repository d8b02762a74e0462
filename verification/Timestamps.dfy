/** UTCDateTime: how datetimes reach a column without a timezone and come back, and the queries that
    compare such columns. */
module Timestamps {
  import opened Wrappers
  import T = TokenTable

  /** Microseconds on the wall clock, and how far it is ahead of UTC. */
  datatype DateTime = Aware(wall: int, offset: int) | Naive(wall: int)

  /** What the DATETIME(6) column holds. */
  type Stored = int

  function Instant(d: DateTime): int
    requires d.Aware?
  {
    d.wall - d.offset
  }

  /** astimezone(UTC).replace(tzinfo=None); a naive value passes as it is. */
  function Bind(value: Option<DateTime>): Option<Stored> {
    match value
    case None => None
    case Some(Aware(wall, offset)) => Some(wall - offset)
    case Some(Naive(wall)) => Some(wall)
  }

  /** replace(tzinfo=UTC) */
  function Load(value: Option<Stored>): Option<DateTime> {
    match value
    case None => None
    case Some(wall) => Some(Aware(wall, 0))
  }

  /** An aware value comes back as the same instant, in UTC; what is read can be written back; and a
      naive one is taken for UTC. */
  lemma RoundTrip(d: DateTime, stored: Option<Stored>)
    ensures Load(Bind(Some(d))).Some? && Load(Bind(Some(d))).value.Aware? && Load(Bind(Some(d))).value.offset == 0
    ensures d.Aware? ==> Instant(Load(Bind(Some(d))).value) == Instant(d)
    ensures Load(Bind(Some(d))) == Some(d) <==> d.Aware? && d.offset == 0
    ensures Bind(Load(stored)) == stored && Load(Bind(None)) == None
  {
  }

  /** A clock that is ahead of UTC shows a later time: what it shows comes back as the UTC time. */
  lemma ClockAhead(utc: int, ahead: int)
    ensures Load(Bind(Some(Aware(utc + ahead, ahead)))) == Some(Aware(utc, 0))
    ensures Instant(Aware(utc + ahead, ahead)) == Instant(Aware(utc, 0))
  {
  }

  /** Comparing the columns is comparing the instants. */
  lemma OrderPreserved(a: DateTime, b: DateTime)
    requires a.Aware? && b.Aware?
    ensures Bind(Some(a)).value < Bind(Some(b)).value <==> Instant(a) < Instant(b)
    ensures Bind(Some(a)) == Bind(Some(b)) <==> Instant(a) == Instant(b)
  {
  }

  /** The time columns of refresh_tokens. */
  datatype Columns = Columns(expires: Stored, revoked: Option<Stored>)

  /** The same columns in the entity. */
  datatype Entity = Entity(expires: DateTime, revoked: Option<DateTime>)

  function ToEntity(c: Columns): Entity {
    Entity(Load(Some(c.expires)).value, Load(c.revoked))
  }

  predicate AllAware(e: Entity) {
    e.expires.Aware? && (e.revoked.Some? ==> e.revoked.value.Aware?)
  }

  function ToColumns(e: Entity): Columns {
    Columns(Bind(Some(e.expires)).value, Bind(e.revoked))
  }

  /** WHERE revoked_at IS NULL AND expires_at > :at */
  predicate SqlActive(c: Columns, at: DateTime) {
    c.revoked.None? && c.expires > Bind(Some(at)).value
  }

  /** RefreshToken.is_active; Python refuses to compare aware with naive. */
  predicate IsActive(e: Entity, at: DateTime)
    requires AllAware(e) && at.Aware?
  {
    e.revoked.None? && Instant(at) < Instant(e.expires)
  }

  /** WHERE expires_at < :cutoff OR revoked_at < :cutoff: a null is not less than anything. */
  predicate SqlPurgeable(c: Columns, cutoff: DateTime) {
    var bound := Bind(Some(cutoff)).value;
    c.expires < bound || (c.revoked.Some? && c.revoked.value < bound)
  }

  predicate FakePurgeable(e: Entity, cutoff: DateTime)
    requires AllAware(e) && cutoff.Aware?
  {
    || Instant(e.expires) < Instant(cutoff)
    || (e.revoked.Some? && Instant(e.revoked.value) < Instant(cutoff))
  }

  function RowOf(c: Columns, user: T.User, issued: Stored): T.Row {
    T.Row(user, issued, c.expires, c.revoked)
  }

  /** Every offset, both ways: the query, the entity and the token table's predicate agree on which
      tokens are active, and so do the two purges; what is read compares with what the app writes. */
  lemma QueriesAgree(e: Entity, c: Columns, at: DateTime, user: T.User, issued: Stored)
    requires AllAware(e) && at.Aware?
    ensures SqlActive(ToColumns(e), at) <==> IsActive(e, at)
    ensures SqlPurgeable(ToColumns(e), at) <==> FakePurgeable(e, at)
    ensures AllAware(ToEntity(c)) && ToColumns(ToEntity(c)) == c
    ensures SqlActive(c, at) <==> IsActive(ToEntity(c), at)
    ensures IsActive(ToEntity(c), at) <==> T.Active(RowOf(c, user, issued), Instant(at))
    ensures FakePurgeable(ToEntity(c), at) <==> T.Purgeable(RowOf(c, user, issued), Instant(at))
  {
  }
}
