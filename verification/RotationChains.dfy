/** What every interleaving keeps: one chain of tokens per login, each token spent at most once. */
module RotationChains {
  import opened Wrappers
  import opened TokenTable
  import opened Rotation

  /** The token whose successor this request still has to insert. */
  function Spending(phase: Phase): Option<Token> {
    match phase
    case Won(token, _) => Some(token)
    case CheckingUser(_, parent) => parent
    case Issuing(_, parent) => parent
    case Stamped(_, parent, _) => parent
    case _ => None
  }

  ghost predicate IsLast(h: History, token: Token) {
    && token in h.home
    && h.home[token].login in h.chains
    && h.home[token].index == |h.chains[h.home[token].login].tokens| - 1
  }

  /** A token stands at its place; the refresh that spent the one before it inserted it. */
  ghost predicate HomeOf(h: History, t: Token)
    requires t in h.home
  {
    var Place(login, index, issuer) := h.home[t];
    && login in h.chains
    && index < |h.chains[login].tokens|
    && h.chains[login].tokens[index] == t
    && (if index == 0 then issuer == login
        else var before := h.chains[login].tokens[index - 1];
             before in h.winner && issuer == h.winner[before])
  }

  /** No token stands in two places, and all but the last are spent. */
  ghost predicate ChainOf(h: History, login: Pid)
    requires login in h.chains
  {
    var tokens := h.chains[login].tokens;
    && |tokens| > 0
    && forall i :: 0 <= i < |tokens| ==>
         && tokens[i] in h.home && h.home[tokens[i]].login == login && h.home[tokens[i]].index == i
         && (i < |tokens| - 1 ==> tokens[i] in h.winner)
  }

  ghost predicate HistoryOk(h: History) {
    && (forall t :: t in h.home ==> HomeOf(h, t))
    && (forall login :: login in h.chains ==> ChainOf(h, login))
    && (forall t :: t in h.winner ==> t in h.home)
  }

  /** Rows belong to the user of their chain; a token that a refresh obtained stays revoked. */
  ghost predicate RowsOk(h: History, rows: Table) {
    forall t :: t in rows ==>
      && t in h.home && h.home[t].login in h.chains
      && rows[t].user == h.chains[h.home[t].login].user
      && (t in h.winner ==> rows[t].revoked.Some?)
  }

  ghost predicate FlightOk(h: History, p: Pid, phase: Phase) {
    match Spending(phase)
    case Some(t) =>
      && t in h.winner && h.winner[t] == p && IsLast(h, t)
      && (phase.Won? || phase.user == h.chains[h.home[t].login].user)
    case None =>
      && !phase.CheckingUser?
      && (phase.Created? ==> phase.token in h.home && h.home[phase.token].issuer == p)
      && (phase.Finished? && phase.outcome.Issued? ==>
            phase.outcome.token in h.home && h.home[phase.outcome.token].issuer == p)
      && (phase.Issuing? || phase.Stamped? ==> p !in h.chains)
  }

  ghost predicate FlightsOk(h: History, procs: map<Pid, Phase>) {
    && (forall p :: p in h.chains ==> p in procs)
    && (forall p :: p in procs ==> FlightOk(h, p, procs[p]))
  }

  ghost predicate Inv(s: State) {
    && HistoryOk(s.hist)
    && RowsOk(s.hist, s.rows)
    && FlightsOk(s.hist, s.procs)
  }

  lemma InitInv(retention: int, ttl: int)
    ensures Inv(Init(retention, ttl))
  {
  }

  /** Rows may go, and keep their owner; a revocation is never undone. */
  ghost predicate RowsShrink(rows: Table, rows': Table) {
    forall t :: t in rows' ==>
      && t in rows
      && rows'[t].user == rows[t].user
      && rows'[t].expires == rows[t].expires
      && (rows[t].revoked.Some? ==> rows'[t].revoked.Some?)
  }

  /** A step other than a revocation or an insertion leaves the history alone. */
  lemma QuietStep(s: State, e: Event)
    requires Enabled(s, e) && !e.Revoke? && !e.Insert?
    ensures Next(s, e).hist == s.hist
    ensures RowsShrink(s.rows, Next(s, e).rows)
  {
  }

  /** The steps after the revocation and before the insertion. */
  predicate Midway(e: Event) {
    e.Reread? || e.ReadUser? || e.Stamp?
  }

  lemma MidwayFlight(s: State, e: Event)
    requires Enabled(s, e) && Midway(e) && FlightOk(s.hist, e.pid, s.procs[e.pid]) && RowsOk(s.hist, s.rows)
    ensures FlightOk(s.hist, e.pid, Next(s, e).procs[e.pid])
  {
  }

  lemma AnsweringFlight(s: State, e: Event)
    requires Enabled(s, e) && (e.Confirm? || e.LoginBegin?)
    requires e.pid in s.procs ==> FlightOk(s.hist, e.pid, s.procs[e.pid])
    requires forall p :: p in s.hist.chains ==> p in s.procs
    ensures FlightOk(s.hist, e.pid, Next(s, e).procs[e.pid])
  {
  }

  lemma EndingFlight(s: State, e: Event)
    requires Enabled(s, e) && !e.Revoke? && !e.Insert? && !e.Tick? && !Midway(e) && !e.Confirm? && !e.LoginBegin?
    ensures FlightOk(s.hist, e.pid, Next(s, e).procs[e.pid])
  {
  }

  lemma QuietFlight(s: State, e: Event)
    requires Enabled(s, e) && !e.Revoke? && !e.Insert? && !e.Tick?
    requires e.pid in s.procs ==> FlightOk(s.hist, e.pid, s.procs[e.pid])
    requires RowsOk(s.hist, s.rows) && forall p :: p in s.hist.chains ==> p in s.procs
    ensures e.pid in Next(s, e).procs && FlightOk(s.hist, e.pid, Next(s, e).procs[e.pid])
  {
    if Midway(e) {
      MidwayFlight(s, e);
    } else if e.Confirm? || e.LoginBegin? {
      AnsweringFlight(s, e);
    } else {
      EndingFlight(s, e);
    }
  }

  lemma QuietFlights(s: State, e: Event)
    requires Enabled(s, e) && !e.Revoke? && !e.Insert?
    requires FlightsOk(s.hist, s.procs) && RowsOk(s.hist, s.rows)
    ensures FlightsOk(s.hist, Next(s, e).procs)
  {
    if !e.Tick? {
      QuietFlight(s, e);
      assert Next(s, e).procs == s.procs[e.pid := Next(s, e).procs[e.pid]];
    }
  }

  /** Only the last token of a chain can still be revoked by a refresh. */
  lemma UnspentIsLast(h: History, token: Token)
    requires HistoryOk(h) && token in h.home && token !in h.winner
    ensures IsLast(h, token)
  {
  }

  lemma RevokeKeepsHistory(s: State, e: Event)
    requires Inv(s) && Enabled(s, e) && e.Revoke?
    ensures HistoryOk(Next(s, e).hist)
  {
    var token := s.procs[e.pid].token;
    if Usable(s.rows, token, s.procs[e.pid].at) {
      WinnerKeepsHistory(s.hist, token, e.pid);
    }
  }

  lemma RevokeKeepsFlights(s: State, e: Event)
    requires Inv(s) && Enabled(s, e) && e.Revoke?
    ensures FlightsOk(Next(s, e).hist, Next(s, e).procs)
  {
    var token := s.procs[e.pid].token;
    if Usable(s.rows, token, s.procs[e.pid].at) {
      UnspentIsLast(s.hist, token);
      WinnerKeepsFlights(s.hist, s.procs, token, e.pid);
    }
  }

  lemma RevokeKeepsRows(s: State, e: Event)
    requires Enabled(s, e) && e.Revoke? && RowsOk(s.hist, s.rows)
    ensures RowsOk(Next(s, e).hist, Next(s, e).rows)
  {
  }

  lemma WinnerKeepsHome(h: History, t: Token, token: Token, p: Pid)
    requires t in h.home && HomeOf(h, t) && token !in h.winner
    ensures HomeOf(h.(winner := h.winner[token := p]), t)
  {
  }

  lemma WinnerKeepsChain(h: History, login: Pid, token: Token, p: Pid)
    requires login in h.chains && ChainOf(h, login)
    ensures ChainOf(h.(winner := h.winner[token := p]), login)
  {
  }

  lemma WinnerKeepsHistory(h: History, token: Token, p: Pid)
    requires HistoryOk(h) && token in h.home && token !in h.winner
    ensures HistoryOk(h.(winner := h.winner[token := p]))
  {
    var h' := h.(winner := h.winner[token := p]);
    forall t | t in h'.home ensures HomeOf(h', t) { WinnerKeepsHome(h, t, token, p); }
    forall login | login in h'.chains ensures ChainOf(h', login) { WinnerKeepsChain(h, login, token, p); }
  }

  lemma WinnerKeepsFlights(h: History, procs: map<Pid, Phase>, token: Token, p: Pid)
    requires FlightsOk(h, procs) && token !in h.winner
    ensures forall q :: q in procs ==> FlightOk(h.(winner := h.winner[token := p]), q, procs[q])
  {
  }

  /** What an insertion may rely on: it starts a new chain or extends one at its spent end. */
  ghost predicate MayChain(h: History, p: Pid, user: User, parent: Option<Token>, issued: Token) {
    && issued !in h.home
    && match parent
       case None => p !in h.chains
       case Some(t) =>
         && t in h.winner && h.winner[t] == p
         && IsLast(h, t) && h.chains[h.home[t].login].user == user
  }

  lemma ChainedHome(h: History, p: Pid, user: User, parent: Option<Token>, issued: Token, t: Token)
    requires MayChain(h, p, user, parent, issued)
    requires t in h.home ==> HomeOf(h, t)
    requires parent.Some? ==> HomeOf(h, parent.value)
    requires t == issued || t in h.home
    ensures t in Chained(h, p, user, parent, issued).home
    ensures HomeOf(Chained(h, p, user, parent, issued), t)
  {
  }

  lemma ChainedChain(h: History, p: Pid, user: User, parent: Option<Token>, issued: Token, login: Pid)
    requires MayChain(h, p, user, parent, issued)
    requires login in h.chains ==> ChainOf(h, login)
    requires parent.Some? ==> HomeOf(h, parent.value)
    requires login in Chained(h, p, user, parent, issued).chains
    ensures ChainOf(Chained(h, p, user, parent, issued), login)
  {
  }

  lemma ChainedKeepsHistory(h: History, p: Pid, user: User, parent: Option<Token>, issued: Token)
    requires HistoryOk(h) && MayChain(h, p, user, parent, issued)
    ensures HistoryOk(Chained(h, p, user, parent, issued))
  {
    var h' := Chained(h, p, user, parent, issued);
    forall t | t in h'.home ensures HomeOf(h', t) {
      ChainedHome(h, p, user, parent, issued, t);
    }
    forall login | login in h'.chains ensures ChainOf(h', login) {
      ChainedChain(h, p, user, parent, issued, login);
    }
  }

  /** The new token ends its own chain; every other chain is as it was. */
  lemma ChainedExtends(h: History, p: Pid, user: User, parent: Option<Token>, issued: Token, login: Pid)
    requires HistoryOk(h) && MayChain(h, p, user, parent, issued)
    requires login in Chained(h, p, user, parent, issued).chains
    ensures
      var h' := Chained(h, p, user, parent, issued);
      && issued in h'.home
      && h'.chains[h'.home[issued].login].user == user
      && (if h'.home[issued].login == login then
            h'.chains[login].tokens == (if login in h.chains then h.chains[login].tokens else []) + [issued]
          else login in h.chains && h'.chains[login] == h.chains[login])
      && (login in h.chains ==> h'.chains[login].user == h.chains[login].user)
  {
  }

  lemma ChainedKeepsRows(h: History, rows: Table, p: Pid, user: User, parent: Option<Token>, issued: Token, row: Row)
    requires HistoryOk(h) && RowsOk(h, rows) && MayChain(h, p, user, parent, issued) && row.user == user
    ensures RowsOk(Chained(h, p, user, parent, issued), rows[issued := row])
  {
    var h' := Chained(h, p, user, parent, issued);
    forall t | t in rows[issued := row]
      ensures t in h'.home && h'.home[t].login in h'.chains
      ensures rows[issued := row][t].user == h'.chains[h'.home[t].login].user
      ensures t in h'.winner ==> rows[issued := row][t].revoked.Some?
    {
      ChainedExtends(h, p, user, parent, issued, h'.home[t].login);
    }
  }

  /** No other request was about to add to the same chain. */
  lemma ChainedKeepsFlight(h: History, p: Pid, stamped: Phase, issued: Token, q: Pid, phase: Phase)
    requires stamped.Stamped? && issued !in h.home
    requires FlightOk(h, p, stamped) && FlightOk(h, q, phase) && q != p
    requires stamped.parent.Some? ==> stamped.parent.value in h.home && HomeOf(h, stamped.parent.value)
    requires Spending(phase).Some? ==> Spending(phase).value in h.home && HomeOf(h, Spending(phase).value)
    ensures FlightOk(Chained(h, p, stamped.user, stamped.parent, issued), q, phase)
  {
  }

  lemma ChainedKeepsAllFlights(h: History, procs: map<Pid, Phase>, p: Pid, issued: Token, at: int)
    requires HistoryOk(h) && FlightsOk(h, procs) && p in procs && procs[p].Stamped? && issued !in h.home
    ensures FlightsOk(Chained(h, p, procs[p].user, procs[p].parent, issued), procs[p := Created(issued, at)])
  {
    var h' := Chained(h, p, procs[p].user, procs[p].parent, issued);
    var procs' := procs[p := Created(issued, at)];
    forall q | q in procs' ensures FlightOk(h', q, procs'[q]) {
      if q != p {
        assert FlightOk(h, p, procs[p]) && FlightOk(h, q, procs[q]);
        ChainedKeepsFlight(h, p, procs[p], issued, q, procs[q]);
      }
    }
    forall q | q in h'.chains ensures q in procs' {
      ChainedExtends(h, p, procs[p].user, procs[p].parent, issued, q) by { assert FlightOk(h, p, procs[p]); }
    }
  }

  lemma StampedMayChain(h: History, procs: map<Pid, Phase>, p: Pid, issued: Token)
    requires FlightsOk(h, procs) && p in procs && procs[p].Stamped? && issued !in h.home
    ensures MayChain(h, p, procs[p].user, procs[p].parent, issued)
  {
  }

  lemma InsertEffect(s: State, e: Event)
    requires Enabled(s, e) && e.Insert?
    ensures
      var Stamped(user, parent, at) := s.procs[e.pid];
      var s' := Next(s, e);
      && s'.hist == Chained(s.hist, e.pid, user, parent, e.issued)
      && s'.rows == s.rows[e.issued := Row(user, at, at + s.ttl, None)]
      && s'.procs == s.procs[e.pid := Created(e.issued, at)]
  {
  }

  lemma InsertKeepsHistory(s: State, e: Event)
    requires Enabled(s, e) && e.Insert? && HistoryOk(s.hist) && FlightsOk(s.hist, s.procs)
    ensures HistoryOk(Next(s, e).hist)
  {
    StampedMayChain(s.hist, s.procs, e.pid, e.issued);
    ChainedKeepsHistory(s.hist, e.pid, s.procs[e.pid].user, s.procs[e.pid].parent, e.issued);
  }

  lemma StampedKeepsRows(h: History, rows: Table, procs: map<Pid, Phase>, p: Pid, issued: Token, row: Row)
    requires HistoryOk(h) && RowsOk(h, rows) && FlightsOk(h, procs)
    requires p in procs && procs[p].Stamped? && issued !in h.home && row.user == procs[p].user
    ensures RowsOk(Chained(h, p, procs[p].user, procs[p].parent, issued), rows[issued := row])
  {
    StampedMayChain(h, procs, p, issued);
    ChainedKeepsRows(h, rows, p, procs[p].user, procs[p].parent, issued, row);
  }

  lemma InsertKeepsRows(s: State, e: Event)
    requires Enabled(s, e) && e.Insert? && Inv(s)
    ensures RowsOk(Next(s, e).hist, Next(s, e).rows)
  {
    var Stamped(user, parent, at) := s.procs[e.pid];
    StampedKeepsRows(s.hist, s.rows, s.procs, e.pid, e.issued, Row(user, at, at + s.ttl, None));
  }

  lemma InsertKeepsFlights(s: State, e: Event)
    requires Enabled(s, e) && e.Insert? && HistoryOk(s.hist) && FlightsOk(s.hist, s.procs)
    ensures FlightsOk(Next(s, e).hist, Next(s, e).procs)
  {
    ChainedKeepsAllFlights(s.hist, s.procs, e.pid, e.issued, s.procs[e.pid].at);
    InsertEffect(s, e);
  }

  lemma InvNext(s: State, e: Event)
    requires Inv(s) && Enabled(s, e)
    ensures Inv(Next(s, e))
  {
    if e.Revoke? {
      RevokeKeepsHistory(s, e);
      RevokeKeepsFlights(s, e);
      RevokeKeepsRows(s, e);
    } else if e.Insert? {
      InsertKeepsHistory(s, e);
      InsertKeepsRows(s, e);
      InsertKeepsFlights(s, e);
    } else {
      QuietStep(s, e);
      QuietFlights(s, e);
    }
  }

  lemma {:induction false} InvRun(s: State, es: seq<Event>)
    requires Inv(s) && Valid(s, es)
    ensures Inv(Run(s, es))
    decreases |es|
  {
    if es != [] {
      InvNext(s, es[0]);
      InvRun(Next(s, es[0]), es[1..]);
    }
  }
}
