/** The guarantees of refresh-token rotation over every run of the protocol. */
module RotationSafety {
  import opened Wrappers
  import opened TokenTable
  import opened Rotation
  import opened RotationChains

  lemma ReachableInv(s: State)
    requires Reachable(s)
    ensures Inv(s)
  {
    var retention, ttl, es :| Valid(Init(retention, ttl), es) && s == Run(Init(retention, ttl), es);
    InitInv(retention, ttl);
    InvRun(Init(retention, ttl), es);
  }

  /** Neither usable now nor ever again (SpentForever): revoked, or purged. */
  predicate Spent(rows: Table, t: Token) {
    t in rows ==> rows[t].revoked.Some?
  }

  /** The request that inserted token i of a chain: the login, or the refresh that spent token i - 1. */
  ghost predicate InsertedBySpender(h: History, login: Pid, i: nat)
    requires login in h.chains && i < |h.chains[login].tokens|
  {
    var tokens := h.chains[login].tokens;
    && tokens[i] in h.home
    && if i == 0 then h.home[tokens[i]].issuer == login
       else tokens[i - 1] in h.winner && h.home[tokens[i]].issuer == h.winner[tokens[i - 1]]
  }

  lemma IssuerOfPlace(h: History, t: Token)
    requires HistoryOk(h) && t in h.home
    ensures
      var Place(login, index, issuer) := h.home[t];
      && login in h.chains
      && index < |h.chains[login].tokens|
      && h.chains[login].tokens[index] == t
      && InsertedBySpender(h, login, index)
  {
    HomeIsLinked(h, t);
  }

  lemma HomeIsLinked(h: History, t: Token)
    requires t in h.home && HomeOf(h, t)
    ensures h.home[t].login in h.chains && h.home[t].index < |h.chains[h.home[t].login].tokens|
    ensures InsertedBySpender(h, h.home[t].login, h.home[t].index)
  {
  }

  lemma PlaceInChain(h: History, login: Pid, i: nat, t: Token)
    requires login in h.chains && ChainOf(h, login) && i < |h.chains[login].tokens| && t == h.chains[login].tokens[i]
    ensures t in h.home && h.home[t].login == login && h.home[t].index == i
  {
  }

  lemma ChainLinks(h: History, login: Pid, i: nat)
    requires HistoryOk(h) && login in h.chains && i < |h.chains[login].tokens|
    ensures InsertedBySpender(h, login, i)
    ensures h.home[h.chains[login].tokens[i]].index == i
  {
    var t := h.chains[login].tokens[i];
    PlaceInChain(h, login, i, t);
    HomeIsLinked(h, t);
  }

  lemma ChainIsLinear(h: History, login: Pid)
    requires HistoryOk(h) && login in h.chains
    ensures
      var tokens := h.chains[login].tokens;
      && (forall i, j :: 0 <= i < j < |tokens| ==> tokens[i] != tokens[j])
      && (forall i :: 0 <= i < |tokens| ==> InsertedBySpender(h, login, i))
  {
    var tokens := h.chains[login].tokens;
    forall i | 0 <= i < |tokens| ensures InsertedBySpender(h, login, i) { ChainLinks(h, login, i); }
    forall i, j | 0 <= i < j < |tokens| ensures tokens[i] != tokens[j] {
      ChainLinks(h, login, i);
      ChainLinks(h, login, j);
    }
  }

  lemma ChainIsComplete(h: History, login: Pid, t: Token)
    requires HistoryOk(h) && login in h.chains
    ensures t in h.chains[login].tokens <==> t in h.home && h.home[t].login == login
  {
    if i :| 0 <= i < |h.chains[login].tokens| && h.chains[login].tokens[i] == t { PlaceInChain(h, login, i, t); }
    if t in h.home && h.home[t].login == login { assert HomeOf(h, t); }
  }

  lemma ChainIsSpent(h: History, rows: Table, login: Pid)
    requires HistoryOk(h) && RowsOk(h, rows) && login in h.chains
    ensures |h.chains[login].tokens| > 0
    ensures forall i :: 0 <= i < |h.chains[login].tokens| - 1 ==> Spent(rows, h.chains[login].tokens[i])
  {
    assert ChainOf(h, login);
  }

  /** In every interleaving the tokens of one login form a single chain, each but the last spent,
      each inserted by the one request that spent its predecessor, all of one user. */
  lemma SingleChain(s: State, login: Pid)
    requires Reachable(s) && login in s.hist.chains
    ensures
      var Chain(user, tokens) := s.hist.chains[login];
      && |tokens| > 0
      && (forall i, j :: 0 <= i < j < |tokens| ==> tokens[i] != tokens[j])
      && (forall i :: 0 <= i < |tokens| ==> InsertedBySpender(s.hist, login, i))
      && (forall i :: 0 <= i < |tokens| - 1 ==> Spent(s.rows, tokens[i]))
      && (forall t :: t in tokens && t in s.rows ==> s.rows[t].user == user)
  {
    ReachableInv(s);
    ChainIsLinear(s.hist, login);
    ChainIsSpent(s.hist, s.rows, login);
    forall t | t in s.hist.chains[login].tokens ensures t in s.rows ==> s.rows[t].user == s.hist.chains[login].user {
      ChainIsComplete(s.hist, login, t);
    }
  }

  /** Every row belongs to exactly one chain. */
  lemma RowsAreChained(s: State, t: Token)
    requires Reachable(s) && t in s.rows
    ensures t in s.hist.home && s.hist.home[t].login in s.hist.chains
    ensures forall login :: login in s.hist.chains ==>
              (t in s.hist.chains[login].tokens <==> login == s.hist.home[t].login)
  {
    ReachableInv(s);
    forall login | login in s.hist.chains
      ensures t in s.hist.chains[login].tokens <==> login == s.hist.home[t].login
    {
      ChainIsComplete(s.hist, login, t);
    }
  }

  /** A refresh answers with a token that it inserted itself, next after the one it spent. */
  lemma RefreshAnswer(s: State, p: Pid)
    requires Reachable(s)
    requires p in s.procs && s.procs[p].Finished? && s.procs[p].outcome.Issued?
    ensures
      var t := s.procs[p].outcome.token;
      && t in s.hist.home
      && var Place(login, index, issuer) := s.hist.home[t];
      && issuer == p
      && login in s.hist.chains
      && index < |s.hist.chains[login].tokens|
      && s.hist.chains[login].tokens[index] == t
      && InsertedBySpender(s.hist, login, index)
  {
    ReachableInv(s);
    assert FlightOk(s.hist, p, s.procs[p]);
    IssuerOfPlace(s.hist, s.procs[p].outcome.token);
  }

  /** This step is the one in which a request obtains the token. */
  predicate Obtains(s: State, e: Event, token: Token) {
    && e.Revoke? && Enabled(s, e)
    && s.procs[e.pid].token == token
    && Next(s, e).procs[e.pid].Won?
  }

  lemma HistoryGrowsStep(s: State, e: Event)
    requires Enabled(s, e)
    ensures s.hist.winner.Keys <= Next(s, e).hist.winner.Keys
    ensures s.hist.home.Keys <= Next(s, e).hist.home.Keys
  {
    if !e.Revoke? && !e.Insert? { QuietStep(s, e); }
  }

  lemma {:induction false} HistoryGrows(s: State, es: seq<Event>)
    requires Valid(s, es)
    ensures s.hist.winner.Keys <= Run(s, es).hist.winner.Keys
    ensures s.hist.home.Keys <= Run(s, es).hist.home.Keys
    decreases |es|
  {
    if es != [] {
      HistoryGrowsStep(s, es[0]);
      HistoryGrows(Next(s, es[0]), es[1..]);
    }
  }

  /** At most one request of a whole run ever obtains a given token, purged in between or not. */
  lemma ObtainedOnce(s: State, e: Event, es: seq<Event>, f: Event, token: Token)
    requires Reachable(s) && Obtains(s, e, token)
    requires Valid(Next(s, e), es)
    ensures !Obtains(Run(Next(s, e), es), f, token)
  {
    ReachableInv(s);
    InvNext(s, e);
    InvRun(Next(s, e), es);
    HistoryGrows(Next(s, e), es);
  }

  /** A row that has gone when a request comes back to it, to re-read it or to save it, is an error and not a refusal;
      nothing else changes. */
  lemma GoneRowFails(s: State, e: Event)
    requires Enabled(s, e) && (e.Reread? || e.Confirm? || (e.Save? && s.procs[e.pid].changed))
    requires s.procs[e.pid].token !in s.rows
    ensures Next(s, e) == s.(procs := s.procs[e.pid := Finished(Failed)])
  {
  }

  /** Revocation is one way, and so is removal: once spent, always spent. */
  lemma SpentStep(s: State, e: Event, t: Token)
    requires Enabled(s, e) && t in s.hist.home && Spent(s.rows, t)
    ensures Spent(Next(s, e).rows, t)
    ensures t !in s.rows ==> t !in Next(s, e).rows
  {
  }

  lemma {:induction false} SpentForever(s: State, es: seq<Event>, t: Token)
    requires Valid(s, es) && t in s.hist.home && Spent(s.rows, t)
    ensures Spent(Run(s, es).rows, t)
    ensures t !in s.rows ==> t !in Run(s, es).rows
    decreases |es|
  {
    if es != [] {
      SpentStep(s, es[0], t);
      HistoryGrowsStep(s, es[0]);
      SpentForever(Next(s, es[0]), es[1..], t);
    }
  }

  // ---- when a revocation time may move ----

  /** A logout in flight writes nothing into the row of t but v: if it read the row unrevoked, it has
      already fixed the time v. */
  predicate Writes(phase: Phase, t: Token, v: int) {
    match phase
    case Holding(token, revoked) => token == t ==> revoked.Some?
    case Saving(token, at, changed) => token == t && changed ==> at == v
    case _ => true
  }

  ghost predicate Settled(s: State, t: Token, v: int) {
    forall p :: p in s.procs ==> Writes(s.procs[p], t, v)
  }

  lemma SettledStep(s: State, e: Event, t: Token, v: int)
    requires Enabled(s, e) && t in s.hist.home && Settled(s, t, v)
    requires t in s.rows ==> s.rows[t].revoked == Some(v)
    ensures Settled(Next(s, e), t, v) && t in Next(s, e).hist.home
    ensures t in Next(s, e).rows ==> Next(s, e).rows[t].revoked == Some(v)
  {
    var s' := Next(s, e);
    if !e.Tick? { assert e.pid in s.procs ==> Writes(s.procs[e.pid], t, v); }
    forall p | p in s'.procs ensures Writes(s'.procs[p], t, v) {
      if !e.Tick? && p == e.pid { OwnWrites(s, e, t, v); } else { assert p in s.procs && s'.procs[p] == s.procs[p]; }
    }
    HistoryGrowsStep(s, e);
  }

  lemma OwnWrites(s: State, e: Event, t: Token, v: int)
    requires Enabled(s, e) && !e.Tick? && (e.pid in s.procs ==> Writes(s.procs[e.pid], t, v))
    requires t in s.rows ==> s.rows[t].revoked == Some(v)
    ensures Writes(Next(s, e).procs[e.pid], t, v)
  {
  }

  lemma {:induction false} SettledRun(s: State, es: seq<Event>, t: Token, v: int)
    requires Valid(s, es) && t in s.hist.home && Settled(s, t, v)
    requires t in s.rows ==> s.rows[t].revoked == Some(v)
    ensures t in Run(s, es).rows ==> Run(s, es).rows[t].revoked == Some(v)
    decreases |es|
  {
    if es != [] {
      SettledStep(s, es[0], t, v);
      SettledRun(Next(s, es[0]), es[1..], t, v);
    }
  }

  lemma Then(s: State, e: Event, es: seq<Event>)
    requires Enabled(s, e) && Valid(Next(s, e), es)
    ensures Valid(s, [e] + es) && Run(s, [e] + es) == Run(Next(s, e), es)
  {
    assert ([e] + es)[1..] == es;
  }

  lemma SaveMoves(s: State, t: Token, p: Pid)
    requires t in s.rows && p in s.procs && s.procs[p].Saving? && s.procs[p].token == t && s.procs[p].changed
    ensures Valid(s, [Save(p)] + []) && t in Run(s, [Save(p)] + []).rows
    ensures Run(s, [Save(p)] + []).rows[t].revoked == Some(s.procs[p].at)
  {
    var s1 := Next(s, Save(p));
    assert Valid(s1, []) && Run(s1, []) == s1;
    Then(s, Save(p), []);
  }

  /** A logout that would write another time does so, if it is the next to move. */
  lemma LogoutMoves(s: State, t: Token, v: int, p: Pid) returns (es: seq<Event>)
    requires t in s.rows && p in s.procs && !Writes(s.procs[p], t, v)
    ensures Valid(s, es) && t in Run(s, es).rows && Run(s, es).rows[t].revoked != Some(v)
  {
    es := [Save(p)] + [];
    if s.procs[p].Saving? {
      SaveMoves(s, t, p);
    } else {
      var tick := Tick(if s.clock == v then 1 else 0);
      var s1 := Next(s, tick);
      var s2 := Next(s1, LogoutRevoke(p));
      SaveMoves(s2, t, p);
      Then(s1, LogoutRevoke(p), es);
      Then(s, tick, [LogoutRevoke(p)] + es);
      es := [tick] + ([LogoutRevoke(p)] + es);
    }
  }

  /** The revocation time v of a row never moves again, whatever the run, if and only if no logout in
      flight that read the row unrevoked is about to write another one. */
  lemma RevocationStaysExactly(s: State, t: Token, v: int)
    requires Reachable(s) && t in s.rows && s.rows[t].revoked == Some(v)
    ensures (forall es :: Valid(s, es) && t in Run(s, es).rows ==> Run(s, es).rows[t].revoked == Some(v))
       <==> Settled(s, t, v)
  {
    ReachableInv(s);
    assert RowsOk(s.hist, s.rows);
    if Settled(s, t, v) {
      forall es | Valid(s, es) && t in Run(s, es).rows ensures Run(s, es).rows[t].revoked == Some(v) {
        SettledRun(s, es, t, v);
      }
    } else {
      var p :| p in s.procs && !Writes(s.procs[p], t, v);
      var es := LogoutMoves(s, t, v, p);
    }
  }

  /** Two logouts both read the row, one saves, and the time it wrote may still move. */
  function TwoLogouts(t: Token, owner: User, p: Pid, q: Pid): seq<Event> {
    [LogoutRead(p, t, owner)] + ([LogoutRead(q, t, owner)] + ([LogoutRevoke(p)] + ([Save(p)] + [])))
  }

  /** It can happen to every token that is not revoked. */
  lemma RevocationMoves(s: State, t: Token, p: Pid, q: Pid) returns (more: seq<Event>)
    requires t in s.rows && s.rows[t].revoked.None?
    requires p.LogoutCall? && q.LogoutCall? && p != q && p !in s.procs && q !in s.procs
    ensures
      var es := TwoLogouts(t, s.rows[t].user, p, q);
      && Valid(s, es) && t in Run(s, es).rows && Run(s, es).rows[t].revoked == Some(s.clock)
      && Valid(Run(s, es), more) && t in Run(Run(s, es), more).rows
      && Run(Run(s, es), more).rows[t].revoked != Some(s.clock)
  {
    var owner := s.rows[t].user;
    var s1 := Next(s, LogoutRead(p, t, owner));
    var s2 := Next(s1, LogoutRead(q, t, owner));
    var s3 := Next(s2, LogoutRevoke(p));
    var s4 := Next(s3, Save(p));
    assert s4.procs[q] == Holding(t, None) && s4.rows[t].revoked == Some(s.clock);
    more := LogoutMoves(s4, t, s.clock, q);
    assert Valid(s4, []) && Run(s4, []) == s4;
    Then(s3, Save(p), []);
    Then(s2, LogoutRevoke(p), [Save(p)] + []);
    Then(s1, LogoutRead(q, t, owner), [LogoutRevoke(p)] + ([Save(p)] + []));
    Then(s, LogoutRead(p, t, owner), [LogoutRead(q, t, owner)] + ([LogoutRevoke(p)] + ([Save(p)] + [])));
  }

  /** The token a refresh has been asked for or has obtained, if it may still spend it. */
  function Wanted(phase: Phase): Option<Token> {
    if phase.Starting? then Some(phase.token) else Spending(phase)
  }

  predicate OfChain(h: History, t: Token, login: Pid) {
    t in h.home && h.home[t].login == login
  }

  /** Nothing of the login's chain is active, and no refresh on it is in flight. */
  ghost predicate Quiescent(s: State, login: Pid) {
    && login in s.hist.chains
    && (forall t :: t in s.rows && OfChain(s.hist, t, login) ==> !Active(s.rows[t], s.clock))
    && (forall p :: p in s.procs && Wanted(s.procs[p]).Some? ==>
          !OfChain(s.hist, Wanted(s.procs[p]).value, login))
  }

  /** The same, except that a refresh may have begun: too late for whatever it asks. */
  ghost predicate Closed(s: State, login: Pid) {
    && login in s.hist.chains
    && (forall t :: t in s.rows && OfChain(s.hist, t, login) ==> !Active(s.rows[t], s.clock))
    && (forall p :: p in s.procs ==> Late(s, s.procs[p], login))
  }

  ghost predicate Late(s: State, phase: Phase, login: Pid) {
    match Wanted(phase)
    case None => true
    case Some(t) => OfChain(s.hist, t, login) ==>
      phase.Starting? && (t in s.rows ==> !Active(s.rows[t], phase.at))
  }

  /** A row of the next state was there before, no less revoked, or has just been inserted. */
  lemma StepRows(s: State, e: Event, t: Token)
    requires Enabled(s, e) && t in Next(s, e).rows
    ensures
      var row' := Next(s, e).rows[t];
      || (e.Insert? && t == e.issued && t !in s.hist.home)
      || (t in s.rows && row'.expires == s.rows[t].expires && (s.rows[t].revoked.Some? ==> row'.revoked.Some?))
  {
  }

  /** An insertion leaves alone every chain but the one it extends or starts. */
  lemma ChainedElsewhere(h: History, p: Pid, user: User, parent: Option<Token>, issued: Token, login: Pid)
    requires MayChain(h, p, user, parent, issued)
    requires login in h.chains && (parent.Some? ==> h.home[parent.value].login != login)
    ensures
      var h' := Chained(h, p, user, parent, issued);
      && login in h'.chains && h'.chains[login] == h.chains[login]
      && forall t :: OfChain(h', t, login) == OfChain(h, t, login)
  {
  }

  /** A closed chain is not extended. */
  lemma ClosedChain(s: State, e: Event, login: Pid)
    requires Inv(s) && Closed(s, login) && Enabled(s, e)
    ensures login in Next(s, e).hist.chains && Next(s, e).hist.chains[login] == s.hist.chains[login]
    ensures forall t :: OfChain(Next(s, e).hist, t, login) == OfChain(s.hist, t, login)
  {
    if e.Insert? {
      ClosedInsert(s, e, login);
    } else if !e.Revoke? {
      QuietStep(s, e);
    }
  }

  lemma ClosedInsert(s: State, e: Event, login: Pid)
    requires FlightsOk(s.hist, s.procs) && Closed(s, login) && Enabled(s, e) && e.Insert?
    ensures login in Next(s, e).hist.chains && Next(s, e).hist.chains[login] == s.hist.chains[login]
    ensures forall t :: OfChain(Next(s, e).hist, t, login) == OfChain(s.hist, t, login)
  {
    StampedMayChain(s.hist, s.procs, e.pid, e.issued);
    assert Late(s, s.procs[e.pid], login);
    ChainedElsewhere(s.hist, e.pid, s.procs[e.pid].user, s.procs[e.pid].parent, e.issued, login);
  }

  lemma ClosedRow(s: State, e: Event, login: Pid, t: Token, at: int)
    requires Inv(s) && Closed(s, login) && Enabled(s, e)
    requires t in Next(s, e).rows && OfChain(Next(s, e).hist, t, login)
    requires t in s.rows ==> !Active(s.rows[t], at)
    ensures t in s.rows && !Active(Next(s, e).rows[t], at)
  {
    ClosedChain(s, e, login);
    StepRows(s, e, t);
  }

  /** Steps other than these two leave a request wanting the same token, or none. */
  lemma WantedKept(s: State, e: Event)
    requires Enabled(s, e) && !e.Tick? && !e.RefreshBegin? && !e.Revoke?
    ensures
      var phase := Next(s, e).procs[e.pid];
      Wanted(phase).None? || (e.pid in s.procs && !s.procs[e.pid].Starting? && Wanted(phase) == Wanted(s.procs[e.pid]))
  {
  }

  lemma LateRevoke(s: State, e: Event, login: Pid)
    requires Enabled(s, e) && e.Revoke? && Late(s, s.procs[e.pid], login)
    ensures Late(s, Next(s, e).procs[e.pid], login)
  {
  }

  lemma LatePhase(s: State, e: Event, login: Pid)
    requires Enabled(s, e) && !e.Tick? && Closed(s, login)
    ensures Late(s, Next(s, e).procs[e.pid], login)
  {
    assert e.pid in s.procs ==> Late(s, s.procs[e.pid], login);
    if e.Revoke? {
      LateRevoke(s, e, login);
    } else if !e.RefreshBegin? {
      WantedKept(s, e);
    }
  }

  lemma LateStays(s: State, e: Event, login: Pid, phase: Phase)
    requires Inv(s) && Closed(s, login) && Enabled(s, e) && Late(s, phase, login)
    ensures Late(Next(s, e), phase, login)
  {
    ClosedChain(s, e, login);
    var t := Wanted(phase);
    if t.Some? && OfChain(s.hist, t.value, login) && t.value in Next(s, e).rows {
      StepRows(s, e, t.value);
    }
  }

  lemma ClosedRows(s: State, e: Event, login: Pid)
    requires Inv(s) && Closed(s, login) && Enabled(s, e)
    ensures forall t :: t in Next(s, e).rows && OfChain(Next(s, e).hist, t, login) ==>
              !Active(Next(s, e).rows[t], Next(s, e).clock)
  {
    var s' := Next(s, e);
    forall t | t in s'.rows && OfChain(s'.hist, t, login) ensures !Active(s'.rows[t], s'.clock) {
      ClosedRow(s, e, login, t, s.clock);
    }
  }

  lemma AllLate(s: State, e: Event, login: Pid)
    requires Inv(s) && Closed(s, login) && Enabled(s, e)
    ensures forall p :: p in Next(s, e).procs ==> Late(Next(s, e), Next(s, e).procs[p], login)
  {
    var s' := Next(s, e);
    forall p | p in s'.procs ensures Late(s', s'.procs[p], login) {
      assert (e.Tick? || p != e.pid) ==> p in s.procs && s'.procs[p] == s.procs[p];
      if !e.Tick? { LatePhase(s, e, login); }
      LateStays(s, e, login, s'.procs[p]);
    }
  }

  lemma ClosedStep(s: State, e: Event, login: Pid)
    requires Inv(s) && Closed(s, login) && Enabled(s, e)
    ensures Closed(Next(s, e), login)
  {
    ClosedChain(s, e, login);
    ClosedRows(s, e, login);
    AllLate(s, e, login);
  }

  lemma {:induction false} ClosedRun(s: State, es: seq<Event>, login: Pid)
    requires Inv(s) && Closed(s, login) && Valid(s, es)
    ensures Closed(Run(s, es), login)
    ensures Run(s, es).hist.chains[login] == s.hist.chains[login]
    decreases |es|
  {
    if es != [] {
      InvNext(s, es[0]);
      ClosedStep(s, es[0], login);
      ClosedChain(s, es[0], login);
      ClosedRun(Next(s, es[0]), es[1..], login);
    }
  }

  /** A chain with no active token and no refresh in flight never gets an active token, nor any
      token, again: the session is over whatever is presented later. */
  lemma DeadChainStaysDead(s: State, es: seq<Event>, login: Pid)
    requires Reachable(s) && Quiescent(s, login) && Valid(s, es)
    ensures login in Run(s, es).hist.chains && Run(s, es).hist.chains[login] == s.hist.chains[login]
    ensures forall t :: t in Run(s, es).rows && t in s.hist.chains[login].tokens ==>
              !Active(Run(s, es).rows[t], Run(s, es).clock)
  {
    ReachableInv(s);
    ClosedRun(s, es, login);
    InvRun(s, es);
    forall t | t in Run(s, es).rows && t in s.hist.chains[login].tokens
      ensures !Active(Run(s, es).rows[t], Run(s, es).clock)
    {
      ChainIsComplete(Run(s, es).hist, login, t);
    }
  }

  function ActiveTokens(s: State, user: User): set<Token> {
    set t | t in s.rows && s.rows[t].user == user && Active(s.rows[t], s.clock)
  }

  function Logins(s: State, user: User): set<Pid> {
    set login | login in s.hist.chains && s.hist.chains[login].user == user
  }

  /** Tokens of different logins are at most as many as the logins. */
  lemma {:induction false} CountByLogin(ts: set<Token>, home: map<Token, Place>, logins: set<Pid>)
    requires forall t :: t in ts ==> t in home && home[t].login in logins
    requires forall t, u :: t in ts && u in ts && home[t].login == home[u].login ==> t == u
    ensures |ts| <= |logins|
  {
    if ts != {} {
      var t :| t in ts;
      CountByLogin(ts - {t}, home, logins - {home[t].login});
    }
  }

  lemma ActiveIsLast(s: State, t: Token)
    requires Inv(s) && t in s.rows && Active(s.rows[t], s.clock)
    ensures IsLast(s.hist, t)
    ensures s.hist.chains[s.hist.home[t].login].tokens[s.hist.home[t].index] == t
  {
    UnspentIsLast(s.hist, t);
    assert HomeOf(s.hist, t);
  }

  /** A user never has more active tokens than successful logins. */
  lemma ActiveAtMostLogins(s: State, user: User)
    requires Reachable(s)
    ensures |ActiveTokens(s, user)| <= |Logins(s, user)|
  {
    ReachableInv(s);
    var ts := ActiveTokens(s, user);
    forall t, u | t in ts && u in ts && s.hist.home[t].login == s.hist.home[u].login ensures t == u {
      ActiveIsLast(s, t);
      ActiveIsLast(s, u);
    }
    CountByLogin(ts, s.hist.home, Logins(s, user));
  }

  // ---- what a purge reports ----

  lemma RemovedExactly(rows: Table, ids: set<Token>)
    ensures |ids| == |rows| - |rows - ids| <==> ids <= rows.Keys
  {
    var here := ids * rows.Keys;
    assert (rows - ids).Keys == rows.Keys - here;
    assert |rows - ids| == |rows.Keys| - |here|;
    assert |ids| == |here| + |ids - here| by { assert ids == here + (ids - here); }
  }

  /** The count is the number of rows that this step removes, if and only if no selected row has gone
      since the select. */
  lemma PurgeReportsExactly(s: State, p: Pid)
    requires Enabled(s, PurgeDelete(p))
    ensures
      var s' := Next(s, PurgeDelete(p));
      s'.procs[p] == Finished(Purged(|s.procs[p].ids|))
      && (|s.procs[p].ids| == |s.rows| - |s'.rows| <==> s.procs[p].ids <= s.rows.Keys)
  {
    RemovedExactly(s.rows, s.procs[p].ids);
  }

  ghost predicate StillThere(s: State, p: Pid, ids: set<Token>) {
    && p in s.procs
    && (s.procs[p].Finished? || (s.procs[p] == Deleting(ids) && ids <= s.rows.Keys))
  }

  lemma StillThereStep(s: State, e: Event, p: Pid, ids: set<Token>)
    requires Enabled(s, e) && StillThere(s, p, ids) && (e.PurgeDelete? ==> e.pid == p)
    ensures StillThere(Next(s, e), p, ids)
  {
  }

  lemma {:induction false} StillThereRun(s: State, es: seq<Event>, p: Pid, ids: set<Token>)
    requires Valid(s, es) && StillThere(s, p, ids) && forall e :: e in es && e.PurgeDelete? ==> e.pid == p
    ensures StillThere(Run(s, es), p, ids)
    decreases |es|
  {
    if es != [] {
      StillThereStep(s, es[0], p, ids);
      StillThereRun(Next(s, es[0]), es[1..], p, ids);
    }
  }

  lemma ReportsRemoved(s: State, p: Pid, ids: set<Token>)
    requires Enabled(s, PurgeDelete(p)) && StillThere(s, p, ids)
    ensures Next(s, PurgeDelete(p)).procs[p] == Finished(Purged(|s.rows| - |Next(s, PurgeDelete(p)).rows|))
  {
    PurgeReportsExactly(s, p);
  }

  /** So a single purger's count is right, whatever else runs between its select and its delete. */
  lemma SinglePurgerReports(s: State, p: Pid, es: seq<Event>, before: State)
    requires Enabled(s, PurgeSelect(p)) && Valid(Next(s, PurgeSelect(p)), es)
    requires before == Run(Next(s, PurgeSelect(p)), es) && Enabled(before, PurgeDelete(p))
    requires forall e :: e in es && e.PurgeDelete? ==> e.pid == p
    ensures Next(before, PurgeDelete(p)).procs[p]
         == Finished(Purged(|before.rows| - |Next(before, PurgeDelete(p)).rows|))
  {
    var ids := PurgeableTokens(s.rows, s.procs[p].cutoff);
    StillThereRun(Next(s, PurgeSelect(p)), es, p, ids);
    ReportsRemoved(before, p, ids);
  }

  /** Two purge jobs that both select before either deletes. */
  function TwoPurges(p: Pid, q: Pid): seq<Event> {
    [PurgeBegin(p)] + ([PurgeBegin(q)] + ([PurgeSelect(p)] + ([PurgeSelect(q)] + ([PurgeDelete(p)] + []))))
  }

  lemma FiveSteps(s: State, a: Event, b: Event, c: Event, d: Event, e: Event)
    requires Enabled(s, a) && Enabled(Next(s, a), b) && Enabled(Next(Next(s, a), b), c)
    requires Enabled(Next(Next(Next(s, a), b), c), d) && Enabled(Next(Next(Next(Next(s, a), b), c), d), e)
    ensures
      var es := [a] + ([b] + ([c] + ([d] + ([e] + []))));
      Valid(s, es) && Run(s, es) == Next(Next(Next(Next(Next(s, a), b), c), d), e)
  {
    var s1 := Next(s, a);
    var s2 := Next(s1, b);
    var s3 := Next(s2, c);
    var s4 := Next(s3, d);
    assert Valid(Next(s4, e), []);
    Then(s4, e, []);
    Then(s3, d, [e] + []);
    Then(s2, c, [d] + ([e] + []));
    Then(s1, b, [c] + ([d] + ([e] + [])));
    Then(s, a, [b] + ([c] + ([d] + ([e] + []))));
  }

  lemma BothBegin(s: State, p: Pid, q: Pid)
    requires p.PurgeJob? && q.PurgeJob? && p != q && p !in s.procs && q !in s.procs
    ensures Enabled(s, PurgeBegin(p)) && Enabled(Next(s, PurgeBegin(p)), PurgeBegin(q))
    ensures
      var s2 := Next(Next(s, PurgeBegin(p)), PurgeBegin(q));
      && s2.rows == s.rows && p in s2.procs && q in s2.procs
      && s2.procs[p] == s2.procs[q] == Selecting(s.clock - s.retention)
  {
  }

  lemma BothSelect(s: State, p: Pid, q: Pid, cutoff: int)
    requires p in s.procs && q in s.procs && p != q && s.procs[p] == s.procs[q] == Selecting(cutoff)
    requires PurgeableTokens(s.rows, cutoff) != {}
    ensures Enabled(s, PurgeSelect(p)) && Enabled(Next(s, PurgeSelect(p)), PurgeSelect(q))
    ensures
      var s2 := Next(Next(s, PurgeSelect(p)), PurgeSelect(q));
      && s2.rows == s.rows && p in s2.procs && q in s2.procs
      && s2.procs[p] == s2.procs[q] == Deleting(PurgeableTokens(s.rows, cutoff))
  {
  }

  lemma FirstDeletes(s: State, p: Pid, q: Pid, ids: set<Token>)
    requires p in s.procs && q in s.procs && p != q && s.procs[p] == s.procs[q] == Deleting(ids)
    ensures
      var s' := Next(s, PurgeDelete(p));
      q in s'.procs && s'.procs[q] == Deleting(ids) && s'.rows == s.rows - ids
  {
  }

  /** Wherever there is something to purge, two purge jobs can select the same rows: the second reports
      them all and removes none. */
  lemma TwoPurgersMiscount(s: State, p: Pid, q: Pid)
    requires p.PurgeJob? && q.PurgeJob? && p != q && p !in s.procs && q !in s.procs
    requires PurgeableTokens(s.rows, s.clock - s.retention) != {}
    ensures
      var ids := PurgeableTokens(s.rows, s.clock - s.retention);
      && Valid(s, TwoPurges(p, q)) && Enabled(Run(s, TwoPurges(p, q)), PurgeDelete(q))
      && var before := Run(s, TwoPurges(p, q));
      && var after := Next(before, PurgeDelete(q));
      && after.procs[q] == Finished(Purged(|ids|)) && |ids| > 0 && after.rows == before.rows
  {
    var ids := PurgeableTokens(s.rows, s.clock - s.retention);
    BothBegin(s, p, q);
    var s2 := Next(Next(s, PurgeBegin(p)), PurgeBegin(q));
    BothSelect(s2, p, q, s.clock - s.retention);
    FirstDeletes(Next(Next(s2, PurgeSelect(p)), PurgeSelect(q)), p, q, ids);
    FiveSteps(s, PurgeBegin(p), PurgeBegin(q), PurgeSelect(p), PurgeSelect(q), PurgeDelete(p));
    assert s.rows - ids - ids == s.rows - ids;
  }
}
