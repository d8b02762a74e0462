/** check_rate_limit called from one client at a time, over a Redis with many keys, and the keys
    that ip_rate_limiter builds. */
module RateLimiter {
  import opened Wrappers
  import opened RateLimit

  /** A Redis server: expired entries may linger, but no command sees them. */
  class Redis {
    var clock: int
    var entries: map<string, Counter>

    constructor ()
      ensures clock == 0 && entries == map[]
    {
      clock, entries := 0, map[];
    }

    function Entry(key: string): Option<Counter>
      reads this
    {
      if key in entries then Some(entries[key]) else None
    }

    method Incr(key: string) returns (count: nat)
      modifies this
      ensures clock == old(clock)
      ensures entries == old(entries)[key := Incremented(old(Entry(key)), clock)]
      ensures count == entries[key].count
    {
      entries := entries[key := Incremented(Entry(key), clock)];
      count := entries[key].count;
    }

    method Expire(key: string, window: int)
      modifies this
      ensures clock == old(clock) && Entry(key) == Expiring(old(Entry(key)), clock, window)
      ensures forall k :: k != key ==> (k in entries <==> k in old(entries))
      ensures forall k :: k != key && k in entries ==> entries[k] == old(entries)[k]
    {
      if key in entries {
        entries := entries[key := Expiring(Some(entries[key]), clock, window).value];
      }
    }

    method Ttl(key: string) returns (ttl: int)
      ensures ttl == TimeToLive(Entry(key), clock)
    {
      ttl := TimeToLive(Entry(key), clock);
    }

    /** The hits so far in the life of the key, none once it has expired. */
    function Hits(key: string): nat
      reads this
    {
      if key in entries && Alive(entries[key], clock) then entries[key].count else 0
    }

    /** Admits the call exactly if fewer than `limit` hits came before it in this life; counts it
        either way; starts the window only with the first hit.  A refusal says how long to wait,
        at least a second. */
    method CheckRateLimit(key: string, limit: int, window: int) returns (r: Result<(), int>)
      modifies this
      ensures clock == old(clock)
      ensures r.Ok? <==> old(Hits(key)) < limit
      ensures key in entries && entries[key].count == old(Hits(key)) + 1
      ensures old(Hits(key)) > 0 ==> key in old(entries) && entries[key].deadline == old(entries)[key].deadline
      ensures old(Hits(key)) == 0 && (key in old(entries) ==> old(entries)[key].count > 0) ==>
                entries[key].deadline == Some(clock + window)
      ensures r.Err? ==> 1 <= r.error
      ensures r.Err? && entries[key].deadline.Some? && Alive(entries[key], clock) ==>
                clock + r.error == entries[key].deadline.value
      ensures forall k :: k != key ==> (k in entries <==> k in old(entries))
      ensures forall k :: k != key && k in entries ==> entries[k] == old(entries)[k]
    {
      var count := Incr(key);
      if count == 1 {
        Expire(key, window);
      }
      if count > limit {
        var ttl := Ttl(key);
        return Err(if ttl < 1 then 1 else ttl);
      }
      return Ok(());
    }
  }

  // ---- the keys of ip_rate_limiter ----

  function IpKey(scope: string, ip: string): string {
    "ratelimit:" + scope + ":" + ip
  }

  function AfterColon(s: string): string {
    if s == [] then [] else if s[0] == ':' then s[1..] else AfterColon(s[1..])
  }

  lemma {:induction false} SplitsAtColon(scope: string, ip: string)
    requires ':' !in scope
    ensures AfterColon(scope + ":" + ip) == ip
  {
    if scope == "" {
      assert scope + ":" + ip == ":" + ip;
    } else {
      assert (scope + ":" + ip)[1..] == scope[1..] + ":" + ip;
      SplitsAtColon(scope[1..], ip);
    }
  }

  /** Scopes without a colon never share a counter, whatever the addresses (IPv6 ones have colons). */
  lemma KeysDistinct(scope1: string, ip1: string, scope2: string, ip2: string)
    requires ':' !in scope1 && ':' !in scope2
    ensures IpKey(scope1, ip1) == IpKey(scope2, ip2) <==> scope1 == scope2 && ip1 == ip2
  {
    if IpKey(scope1, ip1) == IpKey(scope2, ip2) {
      var rest1, rest2 := scope1 + ":" + ip1, scope2 + ":" + ip2;
      assert IpKey(scope1, ip1)[10..] == rest1 && IpKey(scope2, ip2)[10..] == rest2;
      SplitsAtColon(scope1, ip1);
      SplitsAtColon(scope2, ip2);
      assert rest1[..|scope1|] == scope1 && rest2[..|scope2|] == scope2;
    }
  }

  /** With a colon in a scope, two clients can share one counter. */
  lemma KeysCollide()
    ensures IpKey("a:b", "c") == IpKey("a", "b:c")
  {
  }
}
