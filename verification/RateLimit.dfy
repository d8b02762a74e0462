/** The fixed-window rate limiter: INCR, the EXPIRE of the first hit and TTL are separate Redis
    commands, interleaved with those of any number of clients on one key.  The clock and the window
    count Redis's own time units, of which a second has many. */
module RateLimit {
  import opened Wrappers

  /** What Redis stores under the key; no deadline until somebody sets an expiry. */
  datatype Counter = Counter(count: nat, deadline: Option<int>)

  /** A key is gone once its deadline is reached. */
  predicate Alive(c: Counter, now: int) {
    c.deadline.Some? ==> now < c.deadline.value
  }

  function Incremented(key: Option<Counter>, now: int): Counter {
    if key.Some? && Alive(key.value, now) then key.value.(count := key.value.count + 1)
    else Counter(1, None)
  }

  /** EXPIRE does nothing to a key that is not there. */
  function Expiring(key: Option<Counter>, now: int, window: int): Option<Counter> {
    if key.Some? && Alive(key.value, now) then Some(key.value.(deadline := Some(now + window)))
    else key
  }

  /** TTL answers -2 for no key and -1 for a key that never expires. */
  function TimeToLive(key: Option<Counter>, now: int): int {
    if key.None? || !Alive(key.value, now) then -2
    else if key.value.deadline.None? then -1
    else key.value.deadline.value - now
  }

  type Client = nat

  /** Where check_rate_limit stands after its INCR. */
  datatype Phase =
    | Owing(count: nat)      // count is 1: the EXPIRE is next
    | Asking                 // over the limit: the TTL is next
    | Passed
    | Blocked(retryAfter: int)
    | Stopped(owed: bool)    // crashed, with or without the EXPIRE done

  /** History: one INCR, in the life of the key that it belongs to. */
  datatype Hit = Hit(client: Client, time: int, life: nat, count: nat)

  datatype State = State(
    limit: int,
    window: int,
    clock: int,
    key: Option<Counter>,
    procs: map<Client, Phase>,
    starts: seq<int>,         // when each life of the key began
    hits: seq<Hit>)

  datatype Event =
    | Tick(delay: nat)
    | Incr(client: Client)
    | Expire(client: Client)
    | Ttl(client: Client)
    | Stop(client: Client)

  function Init(limit: int, window: int): State {
    State(limit, window, 0, None, map[], [], [])
  }

  predicate Enabled(s: State, e: Event) {
    match e
    case Tick(_) => true
    case Incr(c) => c !in s.procs
    case Expire(c) => c in s.procs && s.procs[c].Owing?
    case Ttl(c) => c in s.procs && s.procs[c].Asking?
    case Stop(c) => c in s.procs && (s.procs[c].Owing? || s.procs[c].Asking?)
  }

  function AfterCount(limit: int, count: nat): Phase {
    if count > limit then Asking else Passed
  }

  function Next(s: State, e: Event): State
    requires Enabled(s, e)
  {
    match e
    case Tick(delay) => s.(clock := s.clock + delay)
    case Incr(c) =>
      var counter := Incremented(s.key, s.clock);
      var starts := if counter.count == 1 then s.starts + [s.clock] else s.starts;
      s.(key := Some(counter),
      starts := starts,
      hits := s.hits + [Hit(c, s.clock, if |starts| == 0 then 0 else |starts| - 1, counter.count)],
      procs := s.procs[c := if counter.count == 1 then Owing(1) else AfterCount(s.limit, counter.count)])
    case Expire(c) =>
      s.(key := Expiring(s.key, s.clock, s.window), procs := s.procs[c := AfterCount(s.limit, s.procs[c].count)])
    case Ttl(c) =>
      var ttl := TimeToLive(s.key, s.clock);
      s.(procs := s.procs[c := Blocked(if ttl < 1 then 1 else ttl)])
    case Stop(c) => s.(procs := s.procs[c := Stopped(s.procs[c].Owing?)])
  }

  predicate Valid(s: State, es: seq<Event>)
    decreases |es|
  {
    es == [] || (Enabled(s, es[0]) && Valid(Next(s, es[0]), es[1..]))
  }

  function Run(s: State, es: seq<Event>): State
    requires Valid(s, es)
    decreases |es|
  {
    if es == [] then s else Run(Next(s, es[0]), es[1..])
  }

  ghost predicate Reachable(s: State) {
    exists limit, window, es :: Valid(Init(limit, window), es) && s == Run(Init(limit, window), es)
  }

  // ---- what every interleaving keeps ----

  /** How many of the hits belong to this life. */
  function InLife(hits: seq<Hit>, life: nat): nat {
    if hits == [] then 0
    else InLife(hits[..|hits| - 1], life) + (if hits[|hits| - 1].life == life then 1 else 0)
  }

  /** Hit i is the count-th of its life, and falls between the start of that life and the next. */
  ghost predicate HitOk(hits: seq<Hit>, starts: seq<int>, i: nat)
    requires i < |hits|
  {
    var h := hits[i];
    && h.life < |starts|
    && starts[h.life] <= h.time
    && (h.count == 1 ==> h.time == starts[h.life])
    && (h.life + 1 < |starts| ==> h.time <= starts[h.life + 1])
    && h.count == InLife(hits[..i], h.life) + 1
  }

  ghost predicate HitsOk(s: State) {
    && (forall i :: 0 <= i < |s.hits| ==> HitOk(s.hits, s.starts, i))
    && (forall i :: 0 <= i < |s.hits| ==> s.hits[i].time <= s.clock && s.hits[i].client in s.procs)
  }

  /** Lives begin at least one window apart. */
  ghost predicate StartsOk(s: State) {
    && (forall k :: 0 <= k < |s.starts| - 1 ==> s.starts[k] + s.window <= s.starts[k + 1])
    && (forall k :: 0 <= k < |s.starts| ==> s.starts[k] <= s.clock)
  }

  /** The key counts the hits of the last life, and does not end before its window. */
  ghost predicate KeyOk(s: State) {
    match s.key
    case None => s.starts == [] && s.hits == []
    case Some(c) =>
      && |s.starts| > 0
      && c.count == InLife(s.hits, |s.starts| - 1) >= 1
      && InLife(s.hits, |s.starts|) == 0
      && (c.deadline.Some? ==> s.starts[|s.starts| - 1] + s.window <= c.deadline.value)
  }

  ghost predicate Inv(s: State) {
    HitsOk(s) && StartsOk(s) && KeyOk(s)
  }

  lemma InLifeAppend(hits: seq<Hit>, h: Hit, life: nat)
    ensures InLife(hits + [h], life) == InLife(hits, life) + (if h.life == life then 1 else 0)
  {
  }

  /** An INCR continues the last life while the key is alive, and begins a new one otherwise. */
  lemma IncrEffect(s: State, c: Client)
    requires Inv(s) && c !in s.procs
    ensures
      var s' := Next(s, Incr(c));
      var first := s.key.None? || !Alive(s.key.value, s.clock);
      var starts' := if first then s.starts + [s.clock] else s.starts;
      && |starts'| > 0
      && s'.starts == starts'
      && s'.hits == s.hits + [Hit(c, s.clock, |starts'| - 1, if first then 1 else s.key.value.count + 1)]
      && s'.key == Some(if first then Counter(1, None) else s.key.value.(count := s.key.value.count + 1))
  {
  }

  lemma IncrKeepsHit(s: State, c: Client, i: nat)
    requires Inv(s) && c !in s.procs && i < |s.hits|
    ensures i < |Next(s, Incr(c)).hits| && HitOk(Next(s, Incr(c)).hits, Next(s, Incr(c)).starts, i)
  {
    IncrEffect(s, c);
    assert HitOk(s.hits, s.starts, i);
    assert Next(s, Incr(c)).hits[..i] == s.hits[..i];
  }

  lemma IncrAddsHit(s: State, c: Client)
    requires Inv(s) && c !in s.procs
    ensures HitOk(Next(s, Incr(c)).hits, Next(s, Incr(c)).starts, |s.hits|)
  {
  }

  lemma IncrKeepsHits(s: State, c: Client)
    requires Inv(s) && c !in s.procs
    ensures HitsOk(Next(s, Incr(c)))
  {
    var s' := Next(s, Incr(c));
    IncrEffect(s, c);
    forall i | 0 <= i < |s'.hits| ensures HitOk(s'.hits, s'.starts, i) {
      if i < |s.hits| { IncrKeepsHit(s, c, i); } else { IncrAddsHit(s, c); }
    }
  }

  lemma IncrKeepsKey(s: State, c: Client)
    requires Inv(s) && c !in s.procs
    ensures StartsOk(Next(s, Incr(c))) && KeyOk(Next(s, Incr(c)))
  {
    var s' := Next(s, Incr(c));
    IncrEffect(s, c);
    var h := s'.hits[|s.hits|];
    InLifeAppend(s.hits, h, |s'.starts| - 1);
    InLifeAppend(s.hits, h, |s'.starts|);
    NoLaterLife(s.hits, s.starts, |s.starts| + 1) by {
      forall i | 0 <= i < |s.hits| ensures s.hits[i].life < |s.starts| { assert HitOk(s.hits, s.starts, i); }
    }
  }

  lemma {:induction false} NoLaterLife(hits: seq<Hit>, starts: seq<int>, life: nat)
    requires forall i :: 0 <= i < |hits| ==> hits[i].life < |starts|
    requires |starts| <= life
    ensures InLife(hits, life) == 0
  {
    if hits != [] { NoLaterLife(hits[..|hits| - 1], starts, life); }
  }

  lemma InvNext(s: State, e: Event)
    requires Inv(s) && Enabled(s, e)
    ensures Inv(Next(s, e))
  {
    if e.Incr? {
      IncrKeepsHits(s, e.client);
      IncrKeepsKey(s, e.client);
    }
  }

  lemma {:induction false} InvRun(s: State, es: seq<Event>)
    requires Inv(s) && Valid(s, es)
    ensures Inv(Run(s, es))
    decreases |es|
  {
    if es != [] {
      InvNext(s, es[0]);
      InvRun(Next(s, es[0]), es[1..]);
    }
  }

  lemma ReachableInv(s: State)
    requires Reachable(s)
    ensures Inv(s)
  {
    var limit, window, es :| Valid(Init(limit, window), es) && s == Run(Init(limit, window), es);
    InvRun(Init(limit, window), es);
  }

  // ---- how many requests one sliding window admits ----

  /** The hits admitted from `from` on, for the length of one window. */
  function AdmittedWithin(s: State, from: int): set<nat> {
    set i: nat | i < |s.hits| && from <= s.hits[i].time < from + s.window && s.hits[i].count <= s.limit
  }

  lemma {:induction false} StartsApart(s: State, i: nat, j: nat)
    requires StartsOk(s) && 0 <= s.window && i < j < |s.starts|
    ensures s.starts[i] + s.window <= s.starts[j]
  {
    if i + 1 < j { StartsApart(s, i, j - 1); }
  }

  /** Hits less than a window apart are in the same life or in successive ones, and then the
      earlier one is not the hit that began its life. */
  lemma WithinWindow(s: State, i: nat, j: nat)
    requires Inv(s) && i < |s.hits| && j < |s.hits|
    requires s.hits[i].life < s.hits[j].life && s.hits[j].time < s.hits[i].time + s.window
    requires 0 <= s.hits[j].time - s.hits[i].time + s.window
    ensures s.hits[i].life + 1 == s.hits[j].life && s.hits[i].count >= 2
  {
    var a, b := s.hits[i].life, s.hits[j].life;
    assert HitOk(s.hits, s.starts, i) && HitOk(s.hits, s.starts, j);
    if a + 1 < b { StartsApart(s, a + 1, b); }
    StartsApart(s, a, b);
  }

  lemma {:induction false} InLifeGrows(hits: seq<Hit>, i: nat, j: nat, life: nat)
    requires i < j <= |hits| && hits[i].life == life
    ensures InLife(hits[..i], life) < InLife(hits[..j], life)
  {
    var upTo := hits[..j];
    assert upTo[..j - 1] == hits[..j - 1];
    if i < j - 1 { InLifeGrows(hits, i, j - 1, life); }
  }

  /** Within a life no count occurs twice. */
  lemma CountsDiffer(s: State, i: nat, j: nat)
    requires Inv(s) && i < j < |s.hits| && s.hits[i].life == s.hits[j].life
    ensures s.hits[i].count < s.hits[j].count
  {
    assert HitOk(s.hits, s.starts, i) && HitOk(s.hits, s.starts, j);
    InLifeGrows(s.hits, i, j, s.hits[i].life);
  }

  lemma {:induction false} AtMost(ids: set<nat>, slot: map<nat, int>, n: nat)
    requires forall i :: i in ids ==> i in slot && 1 <= slot[i] <= n
    requires forall i, j :: i in ids && j in ids && slot[i] == slot[j] ==> i == j
    ensures |ids| <= n
  {
    if n == 0 {
      assert ids == {};
    } else if i :| i in ids && slot[i] == n {
      AtMost(ids - {i}, slot, n - 1);
    } else {
      AtMost(ids, slot, n - 1);
    }
  }

  /** A slot in 1 .. 2 * limit - 1 for each admitted hit: first those of the later life. */
  function Slot(s: State, last: nat, i: nat): int
    requires i < |s.hits|
  {
    s.hits[i].count + (if s.hits[i].life == last then 0 else s.limit - 1)
  }

  lemma SlotInRange(s: State, from: int, j: nat, i: nat)
    requires Inv(s) && i in AdmittedWithin(s, from) && j in AdmittedWithin(s, from)
    requires s.hits[i].life <= s.hits[j].life
    ensures 1 <= Slot(s, s.hits[j].life, i) <= 2 * s.limit - 1
    ensures s.hits[i].life < s.hits[j].life ==>
              s.limit < Slot(s, s.hits[j].life, i) && s.hits[i].life + 1 == s.hits[j].life
  {
    assert HitOk(s.hits, s.starts, i);
    if s.hits[i].life < s.hits[j].life { WithinWindow(s, i, j); }
  }

  lemma SlotsDiffer(s: State, from: int, j: nat, a: nat, b: nat)
    requires Inv(s) && {a, b, j} <= AdmittedWithin(s, from) && a < b
    requires s.hits[a].life <= s.hits[j].life && s.hits[b].life <= s.hits[j].life
    ensures Slot(s, s.hits[j].life, a) != Slot(s, s.hits[j].life, b)
  {
    SlotInRange(s, from, j, a);
    SlotInRange(s, from, j, b);
    if s.hits[a].life == s.hits[b].life { CountsDiffer(s, a, b); }
  }

  lemma {:induction false} LatestHit(s: State, ids: set<nat>) returns (j: nat)
    requires ids != {} && forall i :: i in ids ==> i < |s.hits|
    ensures j in ids && forall i :: i in ids ==> s.hits[i].life <= s.hits[j].life
  {
    j :| j in ids;
    if ids != {j} {
      var k := LatestHit(s, ids - {j});
      if s.hits[j].life <= s.hits[k].life { j := k; }
    }
  }

  /** Any half-open stretch of one window's length admits at most 2 * limit - 1 requests, however
      the commands of all clients interleave and whichever clients stop. */
  lemma SlidingBound(s: State, from: int)
    requires Reachable(s)
    ensures |AdmittedWithin(s, from)| <= if s.limit <= 0 then 0 else 2 * s.limit - 1
  {
    ReachableInv(s);
    var ids := AdmittedWithin(s, from);
    if ids != {} {
      var j := LatestHit(s, ids);
      var slot := map i | i in ids :: Slot(s, s.hits[j].life, i);
      SlotInRange(s, from, j, j);
      forall i | i in ids ensures 1 <= slot[i] <= 2 * s.limit - 1 { SlotInRange(s, from, j, i); }
      forall a, b | a in ids && b in ids && slot[a] == slot[b] ensures a == b {
        if a < b { SlotsDiffer(s, from, j, a, b); } else if b < a { SlotsDiffer(s, from, j, b, a); }
      }
      AtMost(ids, slot, 2 * s.limit - 1);
    }
  }

  // ---- the bound is reached ----

  /** n requests in a row, by clients `first`, `first + 1`, ... */
  function Burst(first: Client, n: nat): seq<Event>
    decreases n
  {
    if n == 0 then [] else [Incr(first)] + Burst(first + 1, n - 1)
  }

  /** A key that is alive for a while yet, and whose clients are all numbered below `next`. */
  predicate Fresh(s: State, next: Client, count: nat) {
    && s.key.Some? && s.key.value.count == count >= 1 && Alive(s.key.value, s.clock)
    && |s.starts| > 0
    && forall c :: c in s.procs ==> c < next
  }

  /** A burst on a living key appends n hits with successive counts, and changes little else. */
  lemma {:induction false} BurstRun(s: State, next: Client, n: nat)
    requires s.key.Some? && Fresh(s, next, s.key.value.count)
    ensures Valid(s, Burst(next, n))
    ensures
      var s' := Run(s, Burst(next, n));
      && Fresh(s', next + n, s.key.value.count + n)
      && s'.key == Some(s.key.value.(count := s.key.value.count + n))
      && s'.clock == s.clock && s'.limit == s.limit && s'.window == s.window
      && |s'.hits| == |s.hits| + n
      && (forall i :: 0 <= i < |s.hits| ==> s'.hits[i] == s.hits[i])
      && (forall i :: |s.hits| <= i < |s'.hits| ==>
            s'.hits[i].time == s.clock && s'.hits[i].count == s.key.value.count + 1 + i - |s.hits|)
    decreases n
  {
    if n > 0 {
      var s1 := Next(s, Incr(next));
      assert Burst(next, n)[1..] == Burst(next + 1, n - 1);
      BurstRun(s1, next + 1, n - 1);
    }
  }

  lemma {:induction false} RunAppend(s: State, a: seq<Event>, b: seq<Event>)
    requires Valid(s, a) && Valid(Run(s, a), b)
    ensures Valid(s, a + b) && Run(s, a + b) == Run(Run(s, a), b)
    decreases |a|
  {
    if a == [] {
      assert a + b == b;
    } else {
      assert (a + b)[1..] == a[1..] + b;
      RunAppend(Next(s, a[0]), a[1..], b);
    }
  }

  /** The first hit of a life, its EXPIRE, and `n` more hits `delay` later. */
  function Life(first: Client, delay: nat, n: nat): seq<Event> {
    [Incr(first), Expire(first), Tick(delay)] + Burst(first + 1, n)
  }

  lemma ConsRun(s: State, e: Event, es: seq<Event>)
    requires Enabled(s, e) && Valid(Next(s, e), es)
    ensures Valid(s, [e] + es) && Run(s, [e] + es) == Run(Next(s, e), es)
  {
  }

  lemma LifeStart(s: State, next: Client, delay: nat)
    requires (s.key.Some? ==> !Alive(s.key.value, s.clock)) && forall c :: c in s.procs ==> c < next
    requires delay < s.window
    ensures Enabled(s, Incr(next)) && Enabled(Next(s, Incr(next)), Expire(next))
    ensures
      var s' := Next(Next(Next(s, Incr(next)), Expire(next)), Tick(delay));
      && s'.key == Some(Counter(1, Some(s.clock + s.window)))
      && s'.clock == s.clock + delay && s'.limit == s.limit && s'.window == s.window
      && Fresh(s', next + 1, 1)
      && |s'.hits| == |s.hits| + 1 && s'.hits[..|s.hits|] == s.hits
      && s'.hits[|s.hits|].time == s.clock && s'.hits[|s.hits|].count == 1
  {
  }

  lemma LifeRun(s: State, next: Client, delay: nat, n: nat)
    requires (s.key.Some? ==> !Alive(s.key.value, s.clock)) && forall c :: c in s.procs ==> c < next
    requires delay < s.window
    ensures Valid(s, Life(next, delay, n))
    ensures
      var s' := Run(s, Life(next, delay, n));
      && s'.key == Some(Counter(n + 1, Some(s.clock + s.window)))
      && s'.clock == s.clock + delay && s'.limit == s.limit && s'.window == s.window
      && (forall c :: c in s'.procs ==> c < next + n + 1)
      && |s'.hits| == |s.hits| + n + 1
      && (forall i :: 0 <= i < |s.hits| ==> s'.hits[i] == s.hits[i])
      && s'.hits[|s.hits|].time == s.clock && s'.hits[|s.hits|].count == 1
      && (forall i :: |s.hits| < i < |s'.hits| ==>
            s'.hits[i].time == s.clock + delay && s'.hits[i].count == 1 + i - |s.hits|)
  {
    LifeStart(s, next, delay);
    var s1 := Next(s, Incr(next));
    var s2 := Next(s1, Expire(next));
    var s3 := Next(s2, Tick(delay));
    var rest := Burst(next + 1, n);
    LifeCompose(s, next, delay, rest) by { BurstRun(s3, next + 1, n); }
    BurstRun(s3, next + 1, n);
    forall i | 0 <= i < |s.hits| ensures s3.hits[i] == s.hits[i] {
      assert s3.hits[i] == s3.hits[..|s.hits|][i];
    }
  }

  lemma LifeCompose(s: State, next: Client, delay: nat, rest: seq<Event>)
    requires Enabled(s, Incr(next)) && Enabled(Next(s, Incr(next)), Expire(next))
    requires Valid(Next(Next(Next(s, Incr(next)), Expire(next)), Tick(delay)), rest)
    ensures Valid(s, [Incr(next), Expire(next), Tick(delay)] + rest)
    ensures Run(s, [Incr(next), Expire(next), Tick(delay)] + rest)
         == Run(Next(Next(Next(s, Incr(next)), Expire(next)), Tick(delay)), rest)
  {
    var s1 := Next(s, Incr(next));
    var s2 := Next(s1, Expire(next));
    ConsRun(s2, Tick(delay), rest);
    ConsRun(s1, Expire(next), [Tick(delay)] + rest);
    ConsRun(s, Incr(next), [Expire(next)] + ([Tick(delay)] + rest));
    assert [Incr(next), Expire(next), Tick(delay)] + rest
        == [Incr(next)] + ([Expire(next)] + ([Tick(delay)] + rest));
  }

  /** For every limit and every window of whole seconds some run admits 2 * limit - 1 requests within one
      window's length, as long as the clock divides a second. */
  lemma SlidingBoundReached(limit: nat, seconds: nat, unitsPerSecond: nat) returns (s: State, from: int)
    requires 1 <= limit && 1 <= seconds && 2 <= unitsPerSecond
    ensures Reachable(s) && s.limit == limit && s.window == seconds * unitsPerSecond
    ensures |AdmittedWithin(s, from)| == 2 * limit - 1
  {
    var window := seconds * unitsPerSecond;
    assert 2 <= window;
    var s0 := Init(limit, window);
    var first := Life(0, window - 1, limit - 1);
    LifeRun(s0, 0, window - 1, limit - 1);
    var s1 := Run(s0, first);
    var s2 := Next(s1, Tick(1));
    var second := Life(limit, 0, limit - 1);
    LifeRun(s2, limit, 0, limit - 1);
    ConsRun(s1, Tick(1), second);
    RunAppend(s0, first, [Tick(1)] + second);
    s, from := Run(s2, second), window - 1;
    assert s == Run(s0, first + ([Tick(1)] + second));
    FromSecondOn(s, from, limit) by {
      forall i | 1 <= i < |s.hits| ensures from <= s.hits[i].time < from + s.window && s.hits[i].count <= s.limit {
        if i < |s1.hits| { assert s.hits[i] == s1.hits[i]; }
      }
    }
  }

  lemma FromSecondOn(s: State, from: int, limit: nat)
    requires 1 <= limit && |s.hits| == 2 * limit && s.hits[0].time < from
    requires forall i :: 1 <= i < |s.hits| ==>
               from <= s.hits[i].time < from + s.window && s.hits[i].count <= s.limit
    ensures |AdmittedWithin(s, from)| == 2 * limit - 1
  {
    CountUp(AdmittedWithin(s, from), 2 * limit);
  }

  lemma {:induction false} CountUp(ids: set<nat>, n: nat)
    requires 1 <= n && forall i :: i in ids <==> 1 <= i < n
    ensures |ids| == n - 1
  {
    if n > 1 {
      CountUp(ids - {n - 1}, n - 1);
    } else {
      assert ids == {};
    }
  }

  // ---- who owes the EXPIRE ----

  /** This client's hit began a life of the key, and its EXPIRE has not been sent. */
  predicate Owes(phase: Phase) {
    phase.Owing? || (phase.Stopped? && phase.owed)
  }

  ghost predicate BeganLife(s: State, c: Client, i: nat) {
    && i < |s.hits| && s.hits[i].client == c && s.hits[i].count == 1
    && s.hits[i].life == |s.starts| - 1
  }

  ghost predicate DebtOk(s: State, c: Client)
    requires c in s.procs
  {
    Owes(s.procs[c]) ==>
      && s.key.Some? && s.key.value.deadline.None?
      && (s.procs[c].Owing? ==> s.procs[c].count == 1)
      && exists i :: BeganLife(s, c, i)
  }

  ghost predicate DebtsOk(s: State) {
    && (forall c :: c in s.procs ==> DebtOk(s, c))
    && (forall c, d :: c in s.procs && d in s.procs && Owes(s.procs[c]) && Owes(s.procs[d]) ==> c == d)
    && (s.key.Some? && s.key.value.deadline.None? ==> exists c :: c in s.procs && Owes(s.procs[c]))
  }

  lemma DebtKept(s: State, e: Event, c: Client)
    requires Inv(s) && DebtsOk(s) && Enabled(s, e) && c in s.procs && (e.Tick? || c != e.client)
    ensures c in Next(s, e).procs && Next(s, e).procs[c] == s.procs[c] && DebtOk(Next(s, e), c)
  {
    if Owes(s.procs[c]) {
      var i :| BeganLife(s, c, i);
      if e.Incr? { IncrEffect(s, e.client); }
      assert BeganLife(Next(s, e), c, i);
    }
  }

  lemma DebtOfActor(s: State, e: Event)
    requires Inv(s) && DebtsOk(s) && Enabled(s, e) && !e.Tick?
    ensures e.client in Next(s, e).procs && DebtOk(Next(s, e), e.client)
  {
    if e.Incr? {
      IncrEffect(s, e.client);
      if Next(s, e).procs[e.client].Owing? { assert BeganLife(Next(s, e), e.client, |s.hits|); }
    } else {
      assert DebtOk(s, e.client);
      if Owes(s.procs[e.client]) {
        var i :| BeganLife(s, e.client, i);
        assert BeganLife(Next(s, e), e.client, i);
      }
    }
  }

  lemma DebtsStep(s: State, e: Event)
    requires Inv(s) && DebtsOk(s) && Enabled(s, e)
    ensures DebtsOk(Next(s, e))
  {
    var s' := Next(s, e);
    forall c | c in s'.procs ensures DebtOk(s', c) {
      if !e.Tick? && c == e.client { DebtOfActor(s, e); } else { DebtKept(s, e, c); }
    }
    DebtsDistinct(s, e);
  }

  lemma DebtsDistinct(s: State, e: Event)
    requires Inv(s) && DebtsOk(s) && Enabled(s, e)
    ensures
      var procs := Next(s, e).procs;
      forall c, d :: c in procs && d in procs && Owes(procs[c]) && Owes(procs[d]) ==> c == d
    ensures Next(s, e).key.Some? && Next(s, e).key.value.deadline.None? ==>
              exists c :: c in Next(s, e).procs && Owes(Next(s, e).procs[c])
  {
    var s' := Next(s, e);
    if e.Incr? {
      IncrEffect(s, e.client);
      assert forall c :: c in s.procs ==> DebtOk(s, c);
      assert Owes(s'.procs[e.client]) ==> forall c :: c in s.procs ==> !Owes(s.procs[c]);
    }
    if s'.key.Some? && s'.key.value.deadline.None? {
      if !e.Tick? && e.client in s'.procs && Owes(s'.procs[e.client]) {
      } else {
        var c :| c in s.procs && Owes(s.procs[c]);
        assert DebtOk(s, c);
        assert c in s'.procs && s'.procs[c] == s.procs[c];
      }
    }
  }

  lemma {:induction false} DebtsRun(s: State, es: seq<Event>)
    requires Inv(s) && DebtsOk(s) && Valid(s, es)
    ensures DebtsOk(Run(s, es))
    decreases |es|
  {
    if es != [] {
      InvNext(s, es[0]);
      DebtsStep(s, es[0]);
      DebtsRun(Next(s, es[0]), es[1..]);
    }
  }

  lemma ReachableDebts(s: State)
    requires Reachable(s)
    ensures DebtsOk(s)
  {
    var limit, window, es :| Valid(Init(limit, window), es) && s == Run(Init(limit, window), es);
    DebtsRun(Init(limit, window), es);
  }

  /** A key that never expires has exactly one client owing it an EXPIRE, the one whose hit began
      its life; and no other key has any.  So an EXPIRE always lands on the life it was meant for. */
  lemma ExpireIsOwedOnce(s: State)
    requires Reachable(s)
    ensures (s.key.Some? && s.key.value.deadline.None?) <==> (exists c :: c in s.procs && Owes(s.procs[c]))
    ensures forall c, d :: c in s.procs && d in s.procs && Owes(s.procs[c]) && Owes(s.procs[d]) ==> c == d
    ensures forall c :: c in s.procs && Owes(s.procs[c]) ==> exists i :: BeganLife(s, c, i)
  {
    ReachableDebts(s);
    forall c | c in s.procs && Owes(s.procs[c])
      ensures s.key.Some? && s.key.value.deadline.None? && exists i :: BeganLife(s, c, i)
    {
      assert DebtOk(s, c);
    }
  }

  /** A deadline, once set, stays until it is reached: no hit, admitted or blocked, moves it. */
  lemma WindowNeverExtended(s: State, e: Event)
    requires Reachable(s) && Enabled(s, e)
    requires s.key.Some? && s.key.value.deadline.Some?
    ensures
      var s' := Next(s, e);
      if e.Incr? && s.key.value.deadline.value <= s.clock then |s'.starts| == |s.starts| + 1
      else s'.starts == s.starts && s'.key.Some? && s'.key.value.deadline == s.key.value.deadline
  {
    ReachableInv(s);
    ReachableDebts(s);
    assert e.Expire? ==> DebtOk(s, e.client);
    if e.Incr? { IncrEffect(s, e.client); }
  }

  /** If the client that began a life stops before its EXPIRE, the key never expires again: every
      later hit counts in that same life. */
  predicate Orphaned(s: State) {
    && s.key.Some? && s.key.value.deadline.None?
    && exists c :: c in s.procs && s.procs[c] == Stopped(true)
  }

  lemma OrphanedStep(s: State, e: Event)
    requires Inv(s) && DebtsOk(s) && Orphaned(s) && Enabled(s, e)
    ensures Orphaned(Next(s, e)) && Next(s, e).starts == s.starts
    ensures s.key.value.count <= Next(s, e).key.value.count
    ensures e.Incr? ==> Next(s, e).procs[e.client] == AfterCount(s.limit, s.key.value.count + 1)
  {
    var c :| c in s.procs && s.procs[c] == Stopped(true);
    if e.Incr? { IncrEffect(s, e.client); }
    assert Next(s, e).procs[c] == Stopped(true);
  }

  lemma {:induction false} OrphanedForever(s: State, es: seq<Event>)
    requires Inv(s) && DebtsOk(s) && Orphaned(s) && Valid(s, es)
    ensures Orphaned(Run(s, es)) && Run(s, es).starts == s.starts
    ensures s.key.value.count <= Run(s, es).key.value.count && Run(s, es).limit == s.limit
    ensures Inv(Run(s, es)) && DebtsOk(Run(s, es))
    decreases |es|
  {
    if es != [] {
      InvNext(s, es[0]);
      DebtsStep(s, es[0]);
      OrphanedStep(s, es[0]);
      OrphanedForever(Next(s, es[0]), es[1..]);
    }
  }

  /** Once such a key is at its limit, every later request is refused, however long it waits. */
  lemma OrphanBlocksForever(s: State, es: seq<Event>, c: Client)
    requires Reachable(s) && Orphaned(s) && s.limit <= s.key.value.count
    requires Valid(s, es) && Enabled(Run(s, es), Incr(c))
    ensures Next(Run(s, es), Incr(c)).procs[c] == Asking
  {
    ReachableInv(s);
    ReachableDebts(s);
    OrphanedForever(s, es);
    OrphanedStep(Run(s, es), Incr(c));
  }

  /** However long it waits and whatever the others do, the next request is over the limit. */
  ghost predicate BlocksForever(s: State) {
    forall es, c :: Valid(s, es) && Enabled(Run(s, es), Incr(c)) ==> Next(Run(s, es), Incr(c)).procs[c] == Asking
  }

  /** After this schedule client c's request is not over the limit. */
  ghost predicate Admits(s: State, es: seq<Event>, c: Client) {
    Valid(s, es) && Enabled(Run(s, es), Incr(c)) && Next(Run(s, es), Incr(c)).procs[c] != Asking
  }

  lemma {:induction false} NewClient(used: set<Client>) returns (c: Client)
    ensures c !in used && forall u :: u in used ==> u < c
  {
    c := 0;
    if used != {} {
      var u :| u in used;
      c := NewClient(used - {u});
      if c <= u { c := u + 1; }
      assert forall w :: w in used ==> w == u || w in used - {u};
    }
  }

  lemma AdmitsNow(s: State, c: Client)
    requires c !in s.procs && 1 <= s.limit
    requires s.key.None? || !Alive(s.key.value, s.clock) || 1 <= s.key.value.count < s.limit
    ensures Admits(s, [], c)
  {
  }

  lemma AdmitsLater(s: State, e: Event, es: seq<Event>, c: Client)
    requires Enabled(s, e) && Admits(Next(s, e), es, c)
    ensures Admits(s, [e] + es, c)
  {
    ConsRun(s, e, es);
  }

  /** A key with a deadline lets the first request after it pass. */
  lemma AdmitsAtDeadline(s: State, c: Client) returns (es: seq<Event>)
    requires c !in s.procs && 1 <= s.limit && s.key.Some? && s.key.value.deadline.Some?
    ensures Admits(s, es, c)
  {
    var wait := s.key.value.deadline.value - s.clock;
    var tick := Tick(if wait < 0 then 0 else wait);
    AdmitsNow(Next(s, tick), c);
    AdmitsLater(s, tick, [], c);
    es := [tick] + [];
  }

  /** A key that still awaits its EXPIRE gets one, and then ends. */
  lemma AdmitsOnceExpired(s: State, owing: Client, c: Client) returns (es: seq<Event>)
    requires c !in s.procs && 1 <= s.limit && s.key.Some? && s.key.value.deadline.None?
    requires owing in s.procs && s.procs[owing].Owing?
    ensures Admits(s, es, c)
  {
    var s1 := Next(s, Expire(owing));
    var rest := AdmitsAtDeadline(s1, c);
    AdmitsLater(s, Expire(owing), rest, c);
    es := [Expire(owing)] + rest;
  }

  lemma SomeoneAdmitted(s: State) returns (es: seq<Event>, c: Client)
    requires Reachable(s) && 1 <= s.limit && !(Orphaned(s) && s.limit <= s.key.value.count)
    ensures Admits(s, es, c)
  {
    ReachableInv(s);
    c := NewClient(s.procs.Keys);
    es := [];
    if s.key.None? || !Alive(s.key.value, s.clock) {
      AdmitsNow(s, c);
    } else if s.key.value.deadline.Some? {
      es := AdmitsAtDeadline(s, c);
    } else {
      ExpireIsOwedOnce(s);
      var owing :| owing in s.procs && Owes(s.procs[owing]);
      if s.procs[owing].Owing? {
        es := AdmitsOnceExpired(s, owing, c);
      } else {
        assert Orphaned(s);
        AdmitsNow(s, c);
      }
    }
  }

  /** A key refuses every request from now on, if and only if the client that began its life stopped
      before its EXPIRE and the limit is reached. */
  lemma BlocksForeverExactly(s: State)
    requires Reachable(s) && 1 <= s.limit
    ensures BlocksForever(s) <==> Orphaned(s) && s.limit <= s.key.value.count
  {
    if Orphaned(s) && s.limit <= s.key.value.count {
      forall es, c | Valid(s, es) && Enabled(Run(s, es), Incr(c))
        ensures Next(Run(s, es), Incr(c)).procs[c] == Asking
      {
        OrphanBlocksForever(s, es, c);
      }
    } else {
      var es, c := SomeoneAdmitted(s);
      assert !BlocksForever(s) by { assert Admits(s, es, c); }
    }
  }

  /** One client that stops after its INCR is enough to block a key of limit 1. */
  lemma OneStopBlocks(window: int)
    ensures
      var es := [Incr(0)] + ([Stop(0)] + []);
      && Valid(Init(1, window), es) && Reachable(Run(Init(1, window), es)) && BlocksForever(Run(Init(1, window), es))
  {
    var s := Init(1, window);
    var s1 := Next(s, Incr(0));
    var s2 := Next(s1, Stop(0));
    assert Valid(s2, []) && Run(s2, []) == s2;
    ConsRun(s1, Stop(0), []);
    ConsRun(s, Incr(0), [Stop(0)] + []);
    assert s2.procs[0] == Stopped(true);
    BlocksForeverExactly(s2);
  }

  // ---- who is admitted ----

  ghost predicate VerdictOk(s: State, i: nat)
    requires i < |s.hits|
  {
    var h := s.hits[i];
    && h.client in s.procs
    && match s.procs[h.client]
       case Owing(count) => h.count == 1 && count == 1
       case Asking => s.limit < h.count
       case Passed => h.count <= s.limit
       case Blocked(retryAfter) => s.limit < h.count && 1 <= retryAfter
       case Stopped(_) => true
  }

  ghost predicate VerdictsOk(s: State) {
    && (forall i :: 0 <= i < |s.hits| ==> VerdictOk(s, i))
    && (forall i, j :: 0 <= i < j < |s.hits| ==> s.hits[i].client != s.hits[j].client)
  }

  lemma VerdictsStep(s: State, e: Event)
    requires Inv(s) && VerdictsOk(s) && Enabled(s, e)
    ensures VerdictsOk(Next(s, e))
  {
    var s' := Next(s, e);
    if e.Incr? { IncrEffect(s, e.client); }
    forall i | 0 <= i < |s'.hits| ensures VerdictOk(s', i) {
      if i < |s.hits| { assert VerdictOk(s, i); }
    }
  }

  lemma {:induction false} VerdictsRun(s: State, es: seq<Event>)
    requires Inv(s) && VerdictsOk(s) && Valid(s, es)
    ensures VerdictsOk(Run(s, es))
    decreases |es|
  {
    if es != [] {
      InvNext(s, es[0]);
      VerdictsStep(s, es[0]);
      VerdictsRun(Next(s, es[0]), es[1..]);
    }
  }

  /** The k-th hit of a life is admitted if k is within the limit and refused otherwise, with at
      least a second to wait. */
  lemma KthHit(s: State, i: nat)
    requires Reachable(s) && i < |s.hits|
    ensures
      var k := InLife(s.hits[..i], s.hits[i].life) + 1;
      && s.hits[i].client in s.procs
      && var phase := s.procs[s.hits[i].client];
      && (phase.Passed? ==> k <= s.limit)
      && (phase.Asking? || phase.Blocked? ==> s.limit < k)
      && (phase.Blocked? ==> 1 <= phase.retryAfter)
      && (phase.Owing? ==> k == 1)
  {
    ReachableInv(s);
    var limit, window, es :| Valid(Init(limit, window), es) && s == Run(Init(limit, window), es);
    VerdictsRun(Init(limit, window), es);
    assert VerdictOk(s, i) && HitOk(s.hits, s.starts, i);
  }

  /** A refused client is told to wait until the deadline of the key as it asks, no longer and no shorter: the key
      lives through any shorter wait, and after this one the next request begins a new life. */
  lemma WaitsForDeadline(s: State, c: Client, next: Client, wait: nat)
    requires Enabled(s, Ttl(c)) && next !in s.procs
    requires s.key.Some? && Alive(s.key.value, s.clock) && s.key.value.deadline.Some?
    ensures
      var told := Next(s, Ttl(c));
      && told.clock == s.clock && told.key == s.key && told.procs[c].Blocked?
      && s.clock + told.procs[c].retryAfter == s.key.value.deadline.value
      && (wait < told.procs[c].retryAfter ==> Alive(s.key.value, Next(told, Tick(wait)).clock))
      && (wait >= told.procs[c].retryAfter ==>
            && Enabled(Next(told, Tick(wait)), Incr(next))
            && Next(Next(told, Tick(wait)), Incr(next)).procs[next] == Owing(1))
  {
  }

  /** Where the client that began the last life may stand: before its EXPIRE, stopped there, or passed. */
  predicate Beginning(s: State, c: Client, start: seq<int>) {
    && c in s.procs && s.key.Some?
    && match s.procs[c]
       case Owing(count) => count == 1 && s.key.value.deadline.None? && s.starts == start
       case Passed => true
       case Stopped(owed) => owed
       case _ => false
  }

  lemma BeginningStep(s: State, e: Event, c: Client, start: seq<int>)
    requires Inv(s) && Enabled(s, e) && 1 <= s.limit && Beginning(s, c, start)
    requires DebtsOk(s)
    ensures Beginning(Next(s, e), c, start) && Next(s, e).limit == s.limit
  {
    if e.Incr? { IncrEffect(s, e.client); }
    assert e.Expire? && s.procs[c].Owing? ==> e.client == c;
  }

  lemma {:induction false} BeginningRun(s: State, es: seq<Event>, c: Client, start: seq<int>)
    requires Inv(s) && DebtsOk(s) && Valid(s, es) && 1 <= s.limit && Beginning(s, c, start)
    ensures Beginning(Run(s, es), c, start)
    decreases |es|
  {
    if es != [] {
      BeginningStep(s, es[0], c, start);
      InvNext(s, es[0]);
      DebtsStep(s, es[0]);
      BeginningRun(Next(s, es[0]), es[1..], c, start);
    }
  }

  lemma ExpireBegins(s: State, c: Client, start: seq<int>)
    requires 1 <= s.limit && Beginning(s, c, start) && s.procs[c].Owing?
    ensures Enabled(s, Expire(c)) && Next(s, Expire(c)).procs[c] == Passed && Next(s, Expire(c)).starts == start
    ensures Next(s, Expire(c)).key == Some(s.key.value.(deadline := Some(s.clock + s.window)))
  {
  }

  /** With a positive limit the first request after an expiry is never refused, whatever the others do in
      between; and its EXPIRE, whenever it comes, gives the life that it began a full window. */
  lemma AdmittedAfterExpiry(s: State, c: Client, es: seq<Event>)
    requires Reachable(s) && 1 <= s.limit && c !in s.procs
    requires s.key.Some? ==> !Alive(s.key.value, s.clock)
    requires Valid(Next(s, Incr(c)), es)
    ensures
      var s' := Run(Next(s, Incr(c)), es);
      && c in s'.procs
      && (s'.procs[c] == Owing(1) || s'.procs[c] == Passed || s'.procs[c] == Stopped(true))
      && (s'.procs[c].Owing? ==>
            && Enabled(s', Expire(c)) && s'.key.Some?
            && Next(s', Expire(c)).procs[c] == Passed
            && Next(s', Expire(c)).starts == s.starts + [s.clock]
            && Next(s', Expire(c)).key == Some(s'.key.value.(deadline := Some(s'.clock + s'.window))))
  {
    ReachableInv(s);
    ReachableDebts(s);
    IncrEffect(s, c);
    var s1 := Next(s, Incr(c));
    InvNext(s, Incr(c));
    DebtsStep(s, Incr(c));
    var start := s.starts + [s.clock];
    BeginningRun(s1, es, c, start);
    LimitFixed(s1, es);
    var s' := Run(s1, es);
    if s'.procs[c].Owing? { ExpireBegins(s', c, start); }
  }

  lemma {:induction false} LimitFixed(s: State, es: seq<Event>)
    requires Valid(s, es)
    ensures Run(s, es).limit == s.limit
    decreases |es|
  {
    if es != [] { LimitFixed(Next(s, es[0]), es[1..]); }
  }
}
