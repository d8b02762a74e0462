/** Login, RefreshAccessToken, Logout and PurgeExpiredRefreshTokens as one concurrent protocol.

    Any number of requests interleave.  Each is a program counter (a Phase) that moves from one
    database statement or commit to the next.  Here revoke_if_active is the single atomic step its
    port promises; module RotationLocks splits it into its locking select and its commit. */
module Rotation {
  import opened Wrappers
  import opened TokenTable

  /** The kind of a request is part of its identity: an HTTP route never purges. */
  datatype Pid = LoginCall(n: nat) | RefreshCall(n: nat) | LogoutCall(n: nat) | PurgeJob(n: nat)

  datatype Outcome = Issued(token: Token) | LoggedOut | Purged(count: nat) | Unauthorized | Failed

  datatype Phase =
    // RefreshAccessToken: `at` is the clock it read first
    | Starting(token: Token, at: int)
    | Locked(token: Token, at: int)           // only in RotationLocks: row found active and locked
    | Missed(token: Token, holding: bool)     // only in RotationLocks: no active row found
    | Denied                                  // revoke_if_active has answered None
    | Won(token: Token, at: int)              // revocation committed, row about to be re-read
    | CheckingUser(user: User, parent: Option<Token>)
    // _issue_refresh_token, shared with Login, which has no parent token
    | Issuing(user: User, parent: Option<Token>)
    | Stamped(user: User, parent: Option<Token>, at: int)
    | Created(token: Token, at: int)          // row committed, about to be re-read
    // Logout: the entity read, then whether save finds a change to write: the time `at`
    | Holding(token: Token, revoked: Option<int>)
    | Saving(token: Token, at: int, changed: bool)
    // PurgeExpiredRefreshTokens
    | Selecting(cutoff: int)
    | Deleting(ids: set<Token>)
    | Finished(outcome: Outcome)

  /** The tokens descending from one successful login, oldest first. */
  datatype Chain = Chain(user: User, tokens: seq<Token>)

  /** Where a token stands: the login it descends from, how many refreshes after it, and the
      request that inserted it. */
  datatype Place = Place(login: Pid, index: nat, issuer: Pid)

  /** What has happened so far.  It never forgets a purged token. */
  datatype History = History(
    chains: map<Pid, Chain>,   // by login
    home: map<Token, Place>,
    winner: map<Token, Pid>)   // the refresh that obtained a token

  datatype State = State(
    retention: int,
    ttl: int,
    clock: int,
    rows: Table,
    procs: map<Pid, Phase>,
    locks: map<Token, Pid>,
    hist: History)

  datatype Event =
    | Tick(delay: nat)
    | LoginBegin(pid: Pid, user: User, accepted: bool)
    | RefreshBegin(pid: Pid, token: Token)
    | Revoke(pid: Pid)
    | Reply(pid: Pid)
    | Reread(pid: Pid)
    | ReadUser(pid: Pid, ok: bool)
    | Stamp(pid: Pid)
    | Insert(pid: Pid, issued: Token)
    | Confirm(pid: Pid)
    | LogoutRead(pid: Pid, token: Token, caller: User)
    | LogoutRevoke(pid: Pid)
    | Save(pid: Pid)
    | PurgeBegin(pid: Pid)
    | PurgeSelect(pid: Pid)
    | PurgeDelete(pid: Pid)
    | Abort(pid: Pid)          // the request stops: exception, timeout or crash
    | Lock(pid: Pid)           // only in RotationLocks
    | Commit(pid: Pid)         // only in RotationLocks

  function Init(retention: int, ttl: int): State {
    State(retention, ttl, 0, map[], map[], map[], History(map[], map[], map[]))
  }

  /** The token that a refresh has been asked for and has not yet revoked. */
  function Presented(phase: Phase): Option<Token> {
    match phase
    case Starting(token, _) => Some(token)
    case Locked(token, _) => Some(token)
    case Missed(token, _) => Some(token)
    case _ => None
  }

  /** Nobody presents the token: a new one is fresh, so it has not been guessed. */
  predicate Unseen(procs: map<Pid, Phase>, token: Token) {
    forall p :: p in procs ==> Presented(procs[p]) != Some(token)
  }

  predicate Enabled(s: State, e: Event) {
    match e
    case Tick(_) => true
    case LoginBegin(p, _, _) => p.LoginCall? && p !in s.procs
    case RefreshBegin(p, _) => p.RefreshCall? && p !in s.procs
    case LogoutRead(p, _, _) => p.LogoutCall? && p !in s.procs
    case PurgeBegin(p) => p.PurgeJob? && p !in s.procs
    case Revoke(p) => p in s.procs && s.procs[p].Starting?
    case Reply(p) => p in s.procs && s.procs[p].Denied?
    case Reread(p) => p in s.procs && s.procs[p].Won?
    case ReadUser(p, _) => p in s.procs && s.procs[p].CheckingUser?
    case Stamp(p) => p in s.procs && s.procs[p].Issuing?
    case Insert(p, issued) =>
      p in s.procs && s.procs[p].Stamped? && issued !in s.hist.home && Unseen(s.procs, issued)
    case Confirm(p) => p in s.procs && s.procs[p].Created?
    case LogoutRevoke(p) => p in s.procs && s.procs[p].Holding?
    case Save(p) => p in s.procs && s.procs[p].Saving?
    case PurgeSelect(p) => p in s.procs && s.procs[p].Selecting?
    case PurgeDelete(p) => p in s.procs && s.procs[p].Deleting?
    case Abort(p) => p in s.procs && !s.procs[p].Finished?
    case Lock(_) => false
    case Commit(_) => false
  }

  function Move(s: State, p: Pid, phase: Phase): State {
    s.(procs := s.procs[p := phase])
  }

  /** A login starts a chain; a refresh extends the chain of the token it spent. */
  function Chained(h: History, p: Pid, user: User, parent: Option<Token>, issued: Token): History {
    if parent.Some? && parent.value in h.home && h.home[parent.value].login in h.chains then
      var login := h.home[parent.value].login;
      var chain := h.chains[login];
      h.(chains := h.chains[login := chain.(tokens := chain.tokens + [issued])],
      home := h.home[issued := Place(login, |chain.tokens|, p)])
    else
      h.(chains := h.chains[p := Chain(user, [issued])], home := h.home[issued := Place(p, 0, p)])
  }

  function Next(s: State, e: Event): State
    requires Enabled(s, e)
  {
    match e
    case Tick(delay) => s.(clock := s.clock + delay)
    case LoginBegin(p, user, accepted) =>
      Move(s, p, if accepted then Issuing(user, None) else Finished(Unauthorized))
    case RefreshBegin(p, token) => Move(s, p, Starting(token, s.clock))
    case Revoke(p) =>
      var Starting(token, at) := s.procs[p];
      if Usable(s.rows, token, at) then
        Move(s, p, Won(token, at)).(
        rows := SetRevoked(s.rows, token, at),
        hist := s.hist.(winner := s.hist.winner[token := p]))
      else Move(s, p, Denied)
    case Reply(p) => Move(s, p, Finished(Unauthorized))
    case Reread(p) =>
      var token := s.procs[p].token;
      Move(s, p, if token in s.rows then CheckingUser(s.rows[token].user, Some(token)) else Finished(Failed))
    case ReadUser(p, ok) =>
      var CheckingUser(user, parent) := s.procs[p];
      Move(s, p, if ok then Issuing(user, parent) else Finished(Unauthorized))
    case Stamp(p) =>
      var Issuing(user, parent) := s.procs[p];
      Move(s, p, Stamped(user, parent, s.clock))
    case Insert(p, issued) =>
      var Stamped(user, parent, at) := s.procs[p];
      Move(s, p, Created(issued, at)).(
      rows := s.rows[issued := Row(user, at, at + s.ttl, None)],
      hist := Chained(s.hist, p, user, parent, issued))
    case Confirm(p) =>
      var token := s.procs[p].token;
      Move(s, p, if token in s.rows then Finished(Issued(token)) else Finished(Failed))
    case LogoutRead(p, token, caller) =>
      Move(s, p, if token in s.rows && s.rows[token].user == caller
                 then Holding(token, s.rows[token].revoked) else Finished(Unauthorized))
    case LogoutRevoke(p) =>
      var Holding(token, revoked) := s.procs[p];
      Move(s, p, Saving(token, s.clock, revoked.None?))
    case Save(p) =>
      // save reads the snapshot that the first read saw: a revoked row needs no update
      var Saving(token, at, changed) := s.procs[p];
      if !changed then Move(s, p, Finished(LoggedOut))
      else if token in s.rows then
        Move(s, p, Finished(LoggedOut)).(rows := SetRevoked(s.rows, token, at))
      else Move(s, p, Finished(Failed))
    case PurgeBegin(p) => Move(s, p, Selecting(s.clock - s.retention))
    case PurgeSelect(p) =>
      var ids := PurgeableTokens(s.rows, s.procs[p].cutoff);
      Move(s, p, if ids == {} then Finished(Purged(0)) else Deleting(ids))
    case PurgeDelete(p) =>
      var ids := s.procs[p].ids;
      Move(s, p, Finished(Purged(|ids|))).(rows := s.rows - ids)
    case Abort(p) => Move(s, p, Finished(Failed))
  }

  /** The schedule can be followed from s. */
  predicate Valid(s: State, es: seq<Event>)
    decreases |es|
  {
    es == [] || (Enabled(s, es[0]) && Valid(Next(s, es[0]), es[1..]))
  }

  function Run(s: State, es: seq<Event>): State
    requires Valid(s, es)
    decreases |es|
  {
    if es == [] then s else Run(Next(s, es[0]), es[1..])
  }

  ghost predicate Reachable(s: State) {
    exists retention, ttl, es ::
      Valid(Init(retention, ttl), es) && s == Run(Init(retention, ttl), es)
  }
}
