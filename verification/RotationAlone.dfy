/** Run without interruption, the steps of the protocol do what the use cases of RefreshTokens promise:
    same rows, seen by hash, and same answers. */
module RotationAlone {
  import opened Wrappers
  import opened TokenTable
  import opened Rotation
  import opened RotationChains
  import R = RefreshTokens

  lemma OneStep(s: State, e: Event, es: seq<Event>)
    requires Enabled(s, e) && Valid(Next(s, e), es)
    ensures Valid(s, [e] + es) && Run(s, [e] + es) == Run(Next(s, e), es)
  {
    assert ([e] + es)[1..] == es;
  }

  lemma LastStep(s: State, e: Event)
    requires Enabled(s, e)
    ensures Valid(s, [e]) && Run(s, [e]) == Next(s, e)
  {
    assert Valid(Next(s, e), []) && [e] + [] == [e];
    OneStep(s, e, []);
  }

  // ---- a new token ----

  lemma InsertByHash(t: R.Records, rows: Table, id: R.Id, hash: Token, row: Row)
    requires R.ByHash(t, rows) && id !in t && hash !in rows
    ensures R.ByHash(t[id := R.Record(row, hash)], rows[hash := row])
  {
    var t' := t[id := R.Record(row, hash)];
    var rows' := rows[hash := row];
    forall h | h in rows' ensures exists a :: a in t' && t'[a].hash == h {
      if h == hash {
        assert t'[id].hash == h;
      } else {
        var a :| a in t && t[a].hash == h;
        assert t'[a].hash == h;
      }
    }
  }

  lemma Issue(s: State, p: Pid, issued: Token)
    requires p in s.procs && s.procs[p].Issuing? && issued !in s.hist.home && Unseen(s.procs, issued)
    ensures
      var es := [Stamp(p)] + ([Insert(p, issued)] + [Confirm(p)]);
      && Valid(s, es) && Run(s, es).procs == s.procs[p := Finished(Issued(issued))]
      && Run(s, es).rows == s.rows[issued := Row(s.procs[p].user, s.clock, s.clock + s.ttl, None)]
      && Run(s, es).hist == Chained(s.hist, p, s.procs[p].user, s.procs[p].parent, issued)
  {
    var s1 := Next(s, Stamp(p));
    var s2 := Next(s1, Insert(p, issued));
    LastStep(s2, Confirm(p));
    OneStep(s1, Insert(p, issued), [Confirm(p)]);
    OneStep(s, Stamp(p), [Insert(p, issued)] + [Confirm(p)]);
  }

  // ---- login ----

  /** The steps of one login. */
  function LoginSteps(p: Pid, user: User, accepted: bool, issued: Token): seq<Event> {
    [LoginBegin(p, user, accepted)] + if accepted then [Stamp(p)] + ([Insert(p, issued)] + [Confirm(p)]) else []
  }

  /** The login ends with this answer, these rows and these chains. */
  ghost predicate LoginEnds(s: State, p: Pid, es: seq<Event>, outcome: Outcome, rows: Table, chains: map<Pid, Chain>) {
    && Valid(s, es) && Run(s, es).procs == s.procs[p := Finished(outcome)]
    && Run(s, es).rows == rows && Run(s, es).hist.chains == chains
  }

  lemma AcceptedSteps(s: State, p: Pid, user: User, issued: Token)
    requires p.LoginCall? && p !in s.procs && issued !in s.hist.home && Unseen(s.procs, issued)
    ensures LoginEnds(s, p, LoginSteps(p, user, true, issued), Issued(issued),
                      s.rows[issued := Row(user, s.clock, s.clock + s.ttl, None)],
                      s.hist.chains[p := Chain(user, [issued])])
  {
    var s1 := Next(s, LoginBegin(p, user, true));
    Issue(s1, p, issued);
    OneStep(s, LoginBegin(p, user, true), [Stamp(p)] + ([Insert(p, issued)] + [Confirm(p)]));
  }

  /** A login that is accepted and that nothing interrupts answers with a new token, whose row and whose chain are
      the only change, and is the row that RefreshTokens.Login adds; one that is refused changes nothing. */
  lemma LoginAlone(s: State, t: R.Records, p: Pid, user: User, accepted: bool, id: R.Id, issued: Token)
    requires Inv(s) && R.ByHash(t, s.rows) && id !in t
    requires p.LoginCall? && p !in s.procs && issued !in s.hist.home && Unseen(s.procs, issued)
    ensures
      var es := LoginSteps(p, user, accepted, issued);
      var row := Row(user, s.clock, s.clock + s.ttl, None);
      if accepted then
        && LoginEnds(s, p, es, Issued(issued), s.rows[issued := row], s.hist.chains[p := Chain(user, [issued])])
        && issued !in s.rows && p !in s.hist.chains
        && R.ByHash(t[id := R.Record(row, issued)], Run(s, es).rows)
      else
        && LoginEnds(s, p, es, Unauthorized, s.rows, s.hist.chains)
        && Run(s, es).hist == s.hist && R.ByHash(t, Run(s, es).rows)
  {
    if accepted {
      assert issued !in s.rows by { assert RowsOk(s.hist, s.rows); }
      assert p !in s.hist.chains;
      AcceptedSteps(s, p, user, issued);
      InsertByHash(t, s.rows, id, issued, Row(user, s.clock, s.clock + s.ttl, None));
    } else {
      LastStep(s, LoginBegin(p, user, false));
      assert LoginSteps(p, user, false, issued) == [LoginBegin(p, user, false)];
    }
  }

  // ---- refresh ----

  /** From the re-read on. */
  function Answering(p: Pid, ok: bool, issued: Token): seq<Event> {
    [Reread(p)] + ([ReadUser(p, ok)] + if ok then [Stamp(p)] + ([Insert(p, issued)] + [Confirm(p)]) else [])
  }

  /** The steps of one refresh. */
  function Refreshing(p: Pid, token: Token, usable: bool, ok: bool, issued: Token): seq<Event> {
    [RefreshBegin(p, token)] + ([Revoke(p)] + if usable then Answering(p, ok, issued) else [Reply(p)])
  }

  lemma Answer(s: State, p: Pid, ok: bool, issued: Token)
    requires p in s.procs && s.procs[p].Won? && s.procs[p].token in s.rows
    requires issued !in s.hist.home && Unseen(s.procs, issued)
    ensures
      var es := Answering(p, ok, issued);
      var user := s.rows[s.procs[p].token].user;
      && Valid(s, es) && p in Run(s, es).procs
      && Run(s, es).procs[p] == Finished(if ok then Issued(issued) else Unauthorized)
      && Run(s, es).rows == if ok then s.rows[issued := Row(user, s.clock, s.clock + s.ttl, None)] else s.rows
  {
    var s1 := Next(s, Reread(p));
    var s2 := Next(s1, ReadUser(p, ok));
    var rest := if ok then [Stamp(p)] + ([Insert(p, issued)] + [Confirm(p)]) else [];
    if ok { Issue(s2, p, issued); }
    OneStep(s1, ReadUser(p, ok), rest);
    OneStep(s, Reread(p), [ReadUser(p, ok)] + rest);
  }

  /** The steps up to the revocation. */
  lemma Spend(s: State, p: Pid, token: Token)
    requires p.RefreshCall? && p !in s.procs
    ensures Enabled(s, RefreshBegin(p, token)) && Enabled(Next(s, RefreshBegin(p, token)), Revoke(p))
    ensures
      var s' := Next(Next(s, RefreshBegin(p, token)), Revoke(p));
      && s'.rows == R.RevokeUsable(s.rows, token, s.clock) && s'.hist.home == s.hist.home
      && (forall h :: Unseen(s.procs, h) ==> Unseen(s'.procs, h))
      && s'.clock == s.clock && s'.ttl == s.ttl && p in s'.procs
      && s'.procs[p] == if Usable(s.rows, token, s.clock) then Won(token, s.clock) else Denied
  {
  }

  lemma RefreshSteps(s: State, p: Pid, token: Token, ok: bool, issued: Token)
    requires p.RefreshCall? && p !in s.procs && issued !in s.hist.home && Unseen(s.procs, issued)
    ensures
      var usable := Usable(s.rows, token, s.clock);
      var es := Refreshing(p, token, usable, ok, issued);
      var spent := R.RevokeUsable(s.rows, token, s.clock);
      && Valid(s, es) && p in Run(s, es).procs
      && Run(s, es).procs[p] == Finished(if usable && ok then Issued(issued) else Unauthorized)
      && Run(s, es).rows == if usable && ok
                            then spent[issued := Row(s.rows[token].user, s.clock, s.clock + s.ttl, None)]
                            else spent
  {
    Spend(s, p, token);
    var s1 := Next(s, RefreshBegin(p, token));
    var s2 := Next(s1, Revoke(p));
    var usable := Usable(s.rows, token, s.clock);
    var rest := if usable then Answering(p, ok, issued) else [Reply(p)];
    if usable {
      Answer(s2, p, ok, issued);
    } else {
      assert Valid(Next(s2, Reply(p)), []) && [Reply(p)] + [] == [Reply(p)];
      OneStep(s2, Reply(p), []);
    }
    OneStep(s1, Revoke(p), rest);
    OneStep(s, RefreshBegin(p, token), [Revoke(p)] + rest);
  }

  /** The answer's row, by id and by hash. */
  lemma RotatedByHash(t: R.Records, rows: Table, token: Token, at: int, active: set<User>, id: R.Id, issued: Token,
                      ttl: int)
    returns (t': R.Records, a: R.Id)
    requires R.ByHash(t, rows) && id !in t && issued !in rows
    requires Usable(rows, token, at) && rows[token].user in active
    ensures R.ByHash(t', SetRevoked(rows, token, at)[issued := Row(rows[token].user, at, at + ttl, None)])
    ensures R.Rotated(t, t', a, token, at, active, id, issued, at, ttl)
  {
    R.RevokeByHash(t, rows, token, at);
    R.UsableByHash(t, rows, token, at);
    a :| a in t && R.Matches(t[a], token, at);
    var row := Row(t[a].row.user, at, at + ttl, None);
    var spent := R.RevokeActive(t, token, at);
    InsertByHash(spent, R.RevokeUsable(rows, token, at), id, issued, row);
    t' := spent[id := R.Record(row, issued)];
  }

  /** The refresh ends with the table t', and answers with the new token. */
  ghost predicate Refreshes(s: State, p: Pid, es: seq<Event>, t': R.Records, issued: Token) {
    && Valid(s, es) && p in Run(s, es).procs
    && Run(s, es).procs[p] == Finished(Issued(issued)) && R.ByHash(t', Run(s, es).rows)
  }

  lemma RefreshEnds(s: State, p: Pid, token: Token, issued: Token, t': R.Records)
    requires p.RefreshCall? && p !in s.procs && issued !in s.hist.home && Unseen(s.procs, issued)
    requires Usable(s.rows, token, s.clock)
    requires R.ByHash(t', SetRevoked(s.rows, token, s.clock)[
        issued := Row(s.rows[token].user, s.clock, s.clock + s.ttl, None)])
    ensures Refreshes(s, p, Refreshing(p, token, true, true, issued), t', issued)
  {
    RefreshSteps(s, p, token, true, issued);
  }

  /** A refresh of an active user's active token that nothing interrupts leaves the table, and gives the
      answer, that the contract of RefreshTokens.Refresh describes. */
  lemma RefreshAlone(s: State, t: R.Records, p: Pid, token: Token, active: set<User>, id: R.Id, issued: Token)
    returns (t': R.Records, a: R.Id)
    requires Inv(s) && R.ByHash(t, s.rows) && id !in t
    requires p.RefreshCall? && p !in s.procs && issued !in s.hist.home && Unseen(s.procs, issued)
    requires Usable(s.rows, token, s.clock) && s.rows[token].user in active
    ensures Refreshes(s, p, Refreshing(p, token, true, true, issued), t', issued)
    ensures R.Rotated(t, t', a, token, s.clock, active, id, issued, s.clock, s.ttl)
  {
    assert issued !in s.rows by { assert RowsOk(s.hist, s.rows); }
    t', a := RotatedByHash(t, s.rows, token, s.clock, active, id, issued, s.ttl);
    RefreshEnds(s, p, token, issued, t');
  }

  /** Any other refresh is refused, and spends the token if it was active. */
  lemma RefusedAlone(s: State, t: R.Records, p: Pid, token: Token, active: set<User>, issued: Token)
    requires R.ByHash(t, s.rows) && p.RefreshCall? && p !in s.procs && issued !in s.hist.home && Unseen(s.procs, issued)
    requires Usable(s.rows, token, s.clock) ==> s.rows[token].user !in active
    ensures
      var es := Refreshing(p, token, Usable(s.rows, token, s.clock), false, issued);
      && Valid(s, es) && p in Run(s, es).procs
      && Run(s, es).procs[p] == Finished(Unauthorized)
      && R.ByHash(R.RevokeActive(t, token, s.clock), Run(s, es).rows)
  {
    RefreshSteps(s, p, token, false, issued);
    R.RevokeByHash(t, s.rows, token, s.clock);
  }

  // ---- logout ----

  /** The steps of one logout. */
  function LeavingSteps(p: Pid, token: Token, caller: User, known: bool): seq<Event> {
    [LogoutRead(p, token, caller)] + if known then [LogoutRevoke(p)] + [Save(p)] else []
  }

  lemma LogoutSteps(s: State, p: Pid, token: Token, caller: User)
    requires p.LogoutCall? && p !in s.procs
    ensures
      var known := token in s.rows && s.rows[token].user == caller;
      var es := LeavingSteps(p, token, caller, known);
      && Valid(s, es) && p in Run(s, es).procs
      && Run(s, es).procs[p] == Finished(if known then LoggedOut else Unauthorized)
      && Run(s, es).rows == if known then SetRevoked(s.rows, token, RevokedTime(s.rows[token].revoked, s.clock))
                            else s.rows
  {
    var known := token in s.rows && s.rows[token].user == caller;
    var s1 := Next(s, LogoutRead(p, token, caller));
    if known {
      var s2 := Next(s1, LogoutRevoke(p));
      var s3 := Next(s2, Save(p));
      assert Valid(s3, []) && [Save(p)] + [] == [Save(p)];
      OneStep(s2, Save(p), []);
      OneStep(s1, LogoutRevoke(p), [Save(p)]);
      OneStep(s, LogoutRead(p, token, caller), [LogoutRevoke(p)] + [Save(p)]);
    } else {
      assert Valid(s1, []);
      OneStep(s, LogoutRead(p, token, caller), []);
    }
  }

  lemma RevokeOnceByHash(t: R.Records, rows: Table, a: R.Id, at: int)
    requires R.UniqueHashes(t) && R.ByHash(t, rows) && a in t
    ensures R.ByHash(R.RevokeOnce(t, a, at), SetRevoked(rows, t[a].hash, RevokedTime(rows[t[a].hash].revoked, at)))
  {
    var t' := R.RevokeOnce(t, a, at);
    forall h | h in rows ensures exists b :: b in t' && t'[b].hash == h {
      var b :| b in t && t[b].hash == h;
      assert t'[b].hash == h;
    }
  }

  /** A logout that nothing interrupts does what the contract of RefreshTokens.Logout describes. */
  lemma LogoutAlone(s: State, t: R.Records, p: Pid, token: Token, caller: User)
    requires R.UniqueHashes(t) && R.ByHash(t, s.rows) && p.LogoutCall? && p !in s.procs
    ensures
      var known := exists a :: a in t && t[a].hash == token && t[a].row.user == caller;
      var es := LeavingSteps(p, token, caller, known);
      && Valid(s, es) && p in Run(s, es).procs
      && if known then
           && Run(s, es).procs[p] == Finished(LoggedOut)
           && exists t', a :: R.ByHash(t', Run(s, es).rows) && R.LoggedOut(t, t', a, token, caller, s.clock)
         else
           && Run(s, es).procs[p] == Finished(Unauthorized)
           && R.ByHash(t, Run(s, es).rows)
  {
    LogoutSteps(s, p, token, caller);
    if token in s.rows {
      var a :| a in t && t[a].hash == token;
      RevokeOnceByHash(t, s.rows, a, s.clock);
      if s.rows[token].user == caller {
        assert R.LoggedOut(t, R.RevokeOnce(t, a, s.clock), a, token, caller, s.clock);
      }
    }
  }

  // ---- purge ----

  /** The steps of one purge. */
  function PurgingSteps(p: Pid, some: bool): seq<Event> {
    [PurgeBegin(p)] + ([PurgeSelect(p)] + if some then [PurgeDelete(p)] else [])
  }

  lemma PurgeSteps(s: State, p: Pid)
    requires p.PurgeJob? && p !in s.procs
    ensures
      var ids := PurgeableTokens(s.rows, s.clock - s.retention);
      var es := PurgingSteps(p, ids != {});
      && Valid(s, es) && p in Run(s, es).procs
      && Run(s, es).procs[p] == Finished(Purged(|ids|)) && Run(s, es).rows == s.rows - ids
  {
    var ids := PurgeableTokens(s.rows, s.clock - s.retention);
    var s1 := Next(s, PurgeBegin(p));
    var s2 := Next(s1, PurgeSelect(p));
    var rest := if ids != {} then [PurgeDelete(p)] else [];
    if ids == {} {
      assert s.rows - ids == s.rows && Valid(s2, []);
    } else {
      assert Valid(Next(s2, PurgeDelete(p)), []) && [PurgeDelete(p)] + [] == [PurgeDelete(p)];
      OneStep(s2, PurgeDelete(p), []);
    }
    OneStep(s1, PurgeSelect(p), rest);
    OneStep(s, PurgeBegin(p), [PurgeSelect(p)] + rest);
  }

  lemma PurgeCounts(rows: Table, cutoff: int)
    ensures |rows - PurgeableTokens(rows, cutoff)| + |PurgeableTokens(rows, cutoff)| == |rows|
  {
    var ids := PurgeableTokens(rows, cutoff);
    assert (rows - ids).Keys + ids == rows.Keys;
  }

  /** The purge ends with the table t, and counts the rows that it has removed. */
  ghost predicate Purges(s: State, p: Pid, es: seq<Event>, t: R.Records) {
    && Valid(s, es) && p in Run(s, es).procs && R.ByHash(t, Run(s, es).rows)
    && |Run(s, es).rows| <= |s.rows| && Run(s, es).procs[p] == Finished(Purged(|s.rows| - |Run(s, es).rows|))
  }

  lemma PurgeEnds(s: State, p: Pid, t: R.Records)
    requires p.PurgeJob? && p !in s.procs
    requires R.ByHash(t, s.rows - PurgeableTokens(s.rows, s.clock - s.retention))
    ensures Purges(s, p, PurgingSteps(p, PurgeableTokens(s.rows, s.clock - s.retention) != {}), t)
  {
    PurgeSteps(s, p);
    PurgeCounts(s.rows, s.clock - s.retention);
  }

  /** A purge that nothing interrupts does what the contract of RefreshTokens.PurgeExpired describes. */
  lemma PurgeAlone(s: State, t: R.Records, p: Pid)
    requires R.UniqueHashes(t) && R.ByHash(t, s.rows) && p.PurgeJob? && p !in s.procs
    ensures
      var cutoff := s.clock - s.retention;
      Purges(s, p, PurgingSteps(p, PurgeableTokens(s.rows, cutoff) != {}), R.Purge(t, cutoff))
  {
    R.PurgeByHash(t, s.rows, s.clock - s.retention);
    PurgeEnds(s, p, R.Purge(t, s.clock - s.retention));
  }
}
