/** Where tokens begin: what a run says of each login, and what each login was told at its begin. */
module RotationLogins {
  import opened Wrappers
  import opened TokenTable
  import opened Rotation
  import opened RotationChains
  import opened RotationSafety

  /** The login's chain is the user's, and begins with this token. */
  ghost predicate Opens(h: History, p: Pid, user: User, t: Token) {
    p in h.chains && h.chains[p].user == user && |h.chains[p].tokens| > 0 && h.chains[p].tokens[0] == t
  }

  /** An accepted login is on its way, has answered with the first token of its own chain, or has failed. */
  ghost predicate AcceptedOk(h: History, p: Pid, user: User, phase: Phase) {
    match phase
    case Issuing(u, parent) => u == user && parent.None?
    case Stamped(u, parent, _) => u == user && parent.None?
    case Created(t, _) => Opens(h, p, user, t)
    case Finished(Issued(t)) => Opens(h, p, user, t)
    case Finished(outcome) => outcome == Failed
    case _ => false
  }

  /** A refused login has been told so, and has no chain. */
  predicate RefusedOk(h: History, p: Pid, phase: Phase) {
    phase == Finished(Unauthorized) && p !in h.chains
  }

  /** Who has inserted the token is about to answer with it, has done so, or has failed. */
  predicate AnswersWith(phase: Phase, t: Token) {
    match phase
    case Created(token, _) => token == t
    case Finished(outcome) => outcome == Issued(t) || outcome == Failed
    case _ => false
  }

  /** About to begin a chain. */
  predicate Beginning(phase: Phase) {
    (phase.Issuing? || phase.Stamped?) && phase.parent.None?
  }

  ghost predicate AllAccepted(s: State, past: seq<Event>) {
    forall p, user :: LoginBegin(p, user, true) in past ==>
      p in s.procs && AcceptedOk(s.hist, p, user, s.procs[p])
  }

  ghost predicate AllRefused(s: State, past: seq<Event>) {
    forall p, user :: LoginBegin(p, user, false) in past ==>
      p in s.procs && RefusedOk(s.hist, p, s.procs[p])
  }

  /** Whatever begins a chain, or has begun one, is a login that was accepted for the chain's user. */
  ghost predicate AllBegun(s: State, past: seq<Event>) {
    && (forall p :: p in s.procs && Beginning(s.procs[p]) ==> LoginBegin(p, s.procs[p].user, true) in past)
    && (forall p :: p in s.hist.chains ==> LoginBegin(p, s.hist.chains[p].user, true) in past)
  }

  ghost predicate IssuersOk(s: State) {
    forall t :: t in s.hist.home ==>
      s.hist.home[t].issuer in s.procs && AnswersWith(s.procs[s.hist.home[t].issuer], t)
  }

  ghost predicate LoginsOk(s: State, past: seq<Event>) {
    AllAccepted(s, past) && AllRefused(s, past) && AllBegun(s, past)
  }

  // ---- one step ----

  /** The chain of this login is extended at most; if it is new, an insertion by the login itself begins it. */
  ghost predicate ChainGrows(before: map<Pid, Chain>, after: map<Pid, Chain>, e: Event, phase: Phase, login: Pid) {
    if login in before then
      login in after && after[login].user == before[login].user && before[login].tokens <= after[login].tokens
    else login in after ==>
      && e.Insert? && login == e.pid && phase.Stamped? && phase.parent.None?
      && after[login] == Chain(phase.user, [e.issued])
  }

  lemma ChainInserted(s: State, e: Event, login: Pid)
    requires FlightsOk(s.hist, s.procs) && Enabled(s, e) && e.Insert?
    ensures ChainGrows(s.hist.chains, Next(s, e).hist.chains, e, s.procs[e.pid], login)
  {
    StampedMayChain(s.hist, s.procs, e.pid, e.issued);
  }

  lemma ChainStep(s: State, e: Event, login: Pid)
    requires Inv(s) && Enabled(s, e)
    ensures ChainGrows(s.hist.chains, Next(s, e).hist.chains, e, if e.Insert? then s.procs[e.pid] else Denied, login)
  {
    if e.Insert? { ChainInserted(s, e, login); } else if !e.Revoke? { QuietStep(s, e); }
  }

  lemma OpensStays(s: State, e: Event, p: Pid, user: User, t: Token)
    requires Inv(s) && Enabled(s, e) && Opens(s.hist, p, user, t)
    ensures Opens(Next(s, e).hist, p, user, t)
  {
    ChainStep(s, e, p);
  }

  lemma OthersStep(s: State, e: Event, p: Pid)
    requires Enabled(s, e) && (e.Tick? || e.pid != p)
    ensures p in s.procs <==> p in Next(s, e).procs
    ensures p in s.procs ==> Next(s, e).procs[p] == s.procs[p]
  {
  }

  lemma AcceptedStays(s: State, e: Event, p: Pid, user: User, phase: Phase)
    requires Inv(s) && Enabled(s, e) && AcceptedOk(s.hist, p, user, phase)
    ensures AcceptedOk(Next(s, e).hist, p, user, phase)
  {
    match phase
    case Created(t, _) => OpensStays(s, e, p, user, t);
    case Finished(Issued(t)) => OpensStays(s, e, p, user, t);
    case _ =>
  }

  lemma AcceptedMoves(s: State, e: Event, user: User)
    requires Inv(s) && Enabled(s, e) && !e.Tick? && e.pid in s.procs
    requires AcceptedOk(s.hist, e.pid, user, s.procs[e.pid])
    ensures AcceptedOk(Next(s, e).hist, e.pid, user, Next(s, e).procs[e.pid])
  {
    if e.Insert? {
      assert FlightOk(s.hist, e.pid, s.procs[e.pid]);
    } else if e.Confirm? {
      OpensStays(s, e, e.pid, user, s.procs[e.pid].token);
    }
  }

  lemma AcceptedStep(s: State, e: Event, p: Pid, user: User)
    requires Inv(s) && Enabled(s, e) && p in s.procs && AcceptedOk(s.hist, p, user, s.procs[p])
    ensures p in Next(s, e).procs && AcceptedOk(Next(s, e).hist, p, user, Next(s, e).procs[p])
  {
    if !e.Tick? && e.pid == p {
      AcceptedMoves(s, e, user);
    } else {
      OthersStep(s, e, p);
      AcceptedStays(s, e, p, user, s.procs[p]);
    }
  }

  lemma RefusedStep(s: State, e: Event, p: Pid)
    requires Inv(s) && Enabled(s, e) && p in s.procs && RefusedOk(s.hist, p, s.procs[p])
    ensures p in Next(s, e).procs && RefusedOk(Next(s, e).hist, p, Next(s, e).procs[p])
  {
    OthersStep(s, e, p);
    ChainStep(s, e, p);
  }

  lemma LoginBegins(s: State, e: Event)
    requires Inv(s) && Enabled(s, e) && e.LoginBegin?
    ensures e.pid in Next(s, e).procs
    ensures e.accepted ==> AcceptedOk(Next(s, e).hist, e.pid, e.user, Next(s, e).procs[e.pid])
    ensures !e.accepted ==> RefusedOk(Next(s, e).hist, e.pid, Next(s, e).procs[e.pid])
  {
  }

  lemma IssuerMoves(s: State, e: Event, t: Token)
    requires Enabled(s, e) && !e.Tick? && e.pid in s.procs && AnswersWith(s.procs[e.pid], t)
    ensures AnswersWith(Next(s, e).procs[e.pid], t)
  {
  }

  /** A token keeps its place, and a new one is inserted by the request that moves. */
  lemma PlaceStep(s: State, e: Event, t: Token)
    requires Enabled(s, e) && t in Next(s, e).hist.home
    ensures
      var place := Next(s, e).hist.home[t];
      if t in s.hist.home then place == s.hist.home[t]
      else e.Insert? && place.issuer == e.pid && AnswersWith(Next(s, e).procs[e.pid], t)
  {
    if !e.Insert? && !e.Revoke? { QuietStep(s, e); }
  }

  lemma IssuersStep(s: State, e: Event)
    requires IssuersOk(s) && Enabled(s, e)
    ensures IssuersOk(Next(s, e))
  {
    forall t | t in Next(s, e).hist.home
      ensures Next(s, e).hist.home[t].issuer in Next(s, e).procs
      ensures AnswersWith(Next(s, e).procs[Next(s, e).hist.home[t].issuer], t)
    {
      PlaceStep(s, e, t);
      if t in s.hist.home {
        var p := s.hist.home[t].issuer;
        if e.Tick? || e.pid != p { OthersStep(s, e, p); } else { IssuerMoves(s, e, t); }
      }
    }
  }

  lemma BeginningEvents(s: State, e: Event)
    requires Enabled(s, e) && !e.Tick? && Beginning(Next(s, e).procs[e.pid])
    ensures e.LoginBegin? || e.ReadUser? || e.Stamp?
  {
  }

  lemma BeginningOwn(s: State, e: Event)
    requires Enabled(s, e) && (e.LoginBegin? || e.ReadUser? || e.Stamp?) && Beginning(Next(s, e).procs[e.pid])
    requires e.pid in s.procs ==> FlightOk(s.hist, e.pid, s.procs[e.pid])
    ensures
      var user := Next(s, e).procs[e.pid].user;
      || e == LoginBegin(e.pid, user, true)
      || (e.pid in s.procs && Beginning(s.procs[e.pid]) && s.procs[e.pid].user == user)
  {
  }

  lemma BeginningStep(s: State, e: Event, p: Pid)
    requires FlightsOk(s.hist, s.procs) && Enabled(s, e) && p in Next(s, e).procs && Beginning(Next(s, e).procs[p])
    ensures
      || e == LoginBegin(p, Next(s, e).procs[p].user, true)
      || (p in s.procs && Beginning(s.procs[p]) && s.procs[p].user == Next(s, e).procs[p].user)
  {
    if e.Tick? || e.pid != p {
      OthersStep(s, e, p);
    } else {
      BeginningEvents(s, e);
      BeginningOwn(s, e);
    }
  }

  lemma AcceptedAll(s: State, e: Event, past: seq<Event>)
    requires Inv(s) && LoginsOk(s, past) && Enabled(s, e)
    ensures AllAccepted(Next(s, e), past + [e])
  {
    forall p, user | LoginBegin(p, user, true) in past + [e]
      ensures p in Next(s, e).procs && AcceptedOk(Next(s, e).hist, p, user, Next(s, e).procs[p])
    {
      if e == LoginBegin(p, user, true) {
        LoginBegins(s, e);
      } else {
        assert LoginBegin(p, user, true) in past;
        AcceptedStep(s, e, p, user);
      }
    }
  }

  lemma RefusedAll(s: State, e: Event, past: seq<Event>)
    requires Inv(s) && LoginsOk(s, past) && Enabled(s, e)
    ensures AllRefused(Next(s, e), past + [e])
  {
    forall p, user | LoginBegin(p, user, false) in past + [e]
      ensures p in Next(s, e).procs && RefusedOk(Next(s, e).hist, p, Next(s, e).procs[p])
    {
      if e == LoginBegin(p, user, false) {
        LoginBegins(s, e);
      } else {
        assert LoginBegin(p, user, false) in past;
        RefusedStep(s, e, p);
      }
    }
  }

  lemma BegunAll(s: State, e: Event, past: seq<Event>)
    requires Inv(s) && AllBegun(s, past) && Enabled(s, e)
    ensures AllBegun(Next(s, e), past + [e])
  {
    var s' := Next(s, e);
    forall p | p in s'.procs && Beginning(s'.procs[p]) ensures LoginBegin(p, s'.procs[p].user, true) in past + [e] {
      BeginningStep(s, e, p);
    }
    forall p | p in s'.hist.chains ensures LoginBegin(p, s'.hist.chains[p].user, true) in past + [e] {
      ChainStep(s, e, p);
    }
  }

  // ---- every run ----

  lemma {:induction false} LoginsRun(s: State, past: seq<Event>, es: seq<Event>)
    requires Inv(s) && LoginsOk(s, past) && Valid(s, es)
    ensures LoginsOk(Run(s, es), past + es)
    decreases |es|
  {
    if es == [] {
      assert past + es == past;
    } else {
      AcceptedAll(s, es[0], past);
      RefusedAll(s, es[0], past);
      BegunAll(s, es[0], past);
      InvNext(s, es[0]);
      LoginsRun(Next(s, es[0]), past + [es[0]], es[1..]);
      assert past + [es[0]] + es[1..] == past + es;
    }
  }

  lemma {:induction false} IssuersRun(s: State, es: seq<Event>)
    requires IssuersOk(s) && Valid(s, es)
    ensures IssuersOk(Run(s, es))
    decreases |es|
  {
    if es != [] {
      IssuersStep(s, es[0]);
      IssuersRun(Next(s, es[0]), es[1..]);
    }
  }

  /** Only a request that is about to answer with a token, has answered with it or has failed has ever inserted it:
      a refused request has inserted none, and one that has answered no other than its answer. */
  lemma IssuerAnswers(s: State, t: Token)
    requires Reachable(s) && t in s.hist.home
    ensures s.hist.home[t].issuer in s.procs && AnswersWith(s.procs[s.hist.home[t].issuer], t)
  {
    var retention, ttl, es :| Valid(Init(retention, ttl), es) && s == Run(Init(retention, ttl), es);
    IssuersRun(Init(retention, ttl), es);
  }

  lemma LoginsFromInit(retention: int, ttl: int, es: seq<Event>)
    requires Valid(Init(retention, ttl), es)
    ensures LoginsOk(Run(Init(retention, ttl), es), es) && Inv(Run(Init(retention, ttl), es))
  {
    InitInv(retention, ttl);
    InvRun(Init(retention, ttl), es);
    LoginsRun(Init(retention, ttl), [], es);
    assert [] + es == es;
  }

  /** Every chain began with a login that was accepted, for the chain's user. */
  lemma ChainsBeginAccepted(retention: int, ttl: int, es: seq<Event>, login: Pid)
    requires Valid(Init(retention, ttl), es) && login in Run(Init(retention, ttl), es).hist.chains
    ensures LoginBegin(login, Run(Init(retention, ttl), es).hist.chains[login].user, true) in es
  {
    LoginsFromInit(retention, ttl, es);
  }

  /** A refused login is told so, whatever else runs, and never issues a token: none was inserted by it or descends
      from one that was, and no row of the table is such a token. */
  lemma RefusedNeverIssues(retention: int, ttl: int, es: seq<Event>, p: Pid, user: User)
    requires Valid(Init(retention, ttl), es) && LoginBegin(p, user, false) in es
    ensures
      var s := Run(Init(retention, ttl), es);
      && p in s.procs && s.procs[p] == Finished(Unauthorized) && p !in s.hist.chains
      && (forall t :: t in s.hist.home ==> s.hist.home[t].issuer != p && s.hist.home[t].login != p)
      && (forall t :: t in s.rows ==> t in s.hist.home && s.hist.home[t].issuer != p)
  {
    LoginsFromInit(retention, ttl, es);
    var s := Run(Init(retention, ttl), es);
    forall t | t in s.hist.home ensures s.hist.home[t].issuer != p && s.hist.home[t].login != p {
      IssuerAnswers(s, t);
      assert HomeOf(s.hist, t);
    }
    assert RowsOk(s.hist, s.rows);
  }

  /** An accepted login is never refused: if it has finished, it has failed or its answer is the first token of its
      own chain, which is its user's. */
  lemma AcceptedAnswers(retention: int, ttl: int, es: seq<Event>, p: Pid, user: User)
    requires Valid(Init(retention, ttl), es) && LoginBegin(p, user, true) in es
    ensures
      var s := Run(Init(retention, ttl), es);
      && p in s.procs
      && (s.procs[p].Finished? && s.procs[p].outcome != Failed ==>
            && s.procs[p].outcome.Issued? && p in s.hist.chains && s.hist.chains[p].user == user
            && |s.hist.chains[p].tokens| > 0 && s.procs[p].outcome.token == s.hist.chains[p].tokens[0])
  {
    LoginsFromInit(retention, ttl, es);
  }

  /** The logins of a schedule that were accepted for the user. */
  function AcceptedLogins(es: seq<Event>, user: User): set<Pid> {
    set e | e in es && e.LoginBegin? && e.user == user && e.accepted :: e.pid
  }

  lemma SubsetCounts(a: set<Pid>, b: set<Pid>)
    requires a <= b
    ensures |a| <= |b|
  {
    assert b == a + (b - a);
  }

  /** A user never has more active tokens than logins that were accepted for them. */
  lemma ActiveAtMostAccepted(retention: int, ttl: int, es: seq<Event>, user: User)
    requires Valid(Init(retention, ttl), es)
    ensures |ActiveTokens(Run(Init(retention, ttl), es), user)| <= |AcceptedLogins(es, user)|
  {
    var s := Run(Init(retention, ttl), es);
    ActiveAtMostLogins(s, user);
    LoginsFromInit(retention, ttl, es);
    forall login | login in Logins(s, user) ensures login in AcceptedLogins(es, user) {
      assert LoginBegin(login, user, true) in es;
    }
    SubsetCounts(Logins(s, user), AcceptedLogins(es, user));
  }
}
