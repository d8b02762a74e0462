/** revoke_if_active as the adapter runs it: SELECT ... FOR UPDATE takes a row lock, the commit
    publishes the revocation and releases the lock.  Other writers wait for the lock.  Every such
    run is a run of module Rotation, where revoke_if_active is one atomic step. */
module RotationLocks {
  import opened Wrappers
  import opened TokenTable
  import opened Rotation
  import opened RotationChains
  import opened RotationSafety

  /** The row lock that a request holds. */
  function Held(phase: Phase): Option<Token> {
    match phase
    case Locked(token, _) => Some(token)
    case Missed(token, holding) => if holding then Some(token) else None
    case _ => None
  }

  predicate Unlocked(s: State, token: Token) {
    token !in s.locks
  }

  predicate FineEnabled(s: State, e: Event) {
    match e
    case Revoke(_) => false
    case Reply(_) => false
    case Lock(p) => p in s.procs && s.procs[p].Starting? && Unlocked(s, s.procs[p].token)
    case Commit(p) => p in s.procs && (s.procs[p].Locked? || s.procs[p].Missed?)
    case Save(p) => Enabled(s, e) && (s.procs[p].changed ==> Unlocked(s, s.procs[p].token))
    case PurgeDelete(p) => Enabled(s, e) && s.procs[p].ids !! s.locks.Keys
    case _ => Enabled(s, e)
  }

  function Release(locks: map<Token, Pid>, p: Pid): map<Token, Pid> {
    map t | t in locks && locks[t] != p :: locks[t]
  }

  /** The row with this hash is examined, and so locked, even when it is not active. */
  function AfterLock(s: State, p: Pid, token: Token, at: int): State {
    if Usable(s.rows, token, at) then
      Move(s, p, Locked(token, at)).(locks := s.locks[token := p])
    else if token in s.rows then
      Move(s, p, Missed(token, true)).(locks := s.locks[token := p])
    else
      Move(s, p, Missed(token, false))
  }

  function AfterCommit(s: State, p: Pid): State
    requires p in s.procs && (s.procs[p].Locked? || s.procs[p].Missed?)
  {
    var s' := s.(locks := Release(s.locks, p));
    match s.procs[p]
    case Locked(token, at) =>
      if token in s.rows then
        Move(s', p, Won(token, at)).(
        rows := SetRevoked(s.rows, token, at),
        hist := s.hist.(winner := s.hist.winner[token := p]))
      else Move(s', p, Finished(Failed))
    case Missed(_, _) => Move(s', p, Finished(Unauthorized))
  }

  function FineNext(s: State, e: Event): State
    requires FineEnabled(s, e)
  {
    match e
    case Lock(p) => AfterLock(s, p, s.procs[p].token, s.procs[p].at)
    case Commit(p) => AfterCommit(s, p)
    case Abort(p) => Next(s, e).(locks := Release(s.locks, p))
    case _ => Next(s, e)
  }

  predicate FineValid(s: State, es: seq<Event>)
    decreases |es|
  {
    es == [] || (FineEnabled(s, es[0]) && FineValid(FineNext(s, es[0]), es[1..]))
  }

  function FineRun(s: State, es: seq<Event>): State
    requires FineValid(s, es)
    decreases |es|
  {
    if es == [] then s else FineRun(FineNext(s, es[0]), es[1..])
  }

  // ---- row locks ----

  ghost predicate LockOk(s: State, t: Token)
    requires t in s.locks
  {
    s.locks[t] in s.procs && Held(s.procs[s.locks[t]]) == Some(t)
  }

  ghost predicate HolderOk(s: State, p: Pid)
    requires p in s.procs
  {
    var phase := s.procs[p];
    && (Held(phase).Some? ==> Held(phase).value in s.locks && s.locks[Held(phase).value] == p)
    && (phase.Locked? ==> Usable(s.rows, phase.token, phase.at))
    && !phase.Denied?
  }

  /** Each lock has the one holder that is between its select and its commit; a row found active
      stays active until then. */
  ghost predicate LocksOk(s: State) {
    && (forall t :: t in s.locks ==> LockOk(s, t))
    && (forall p :: p in s.procs ==> HolderOk(s, p))
  }

  lemma OtherHolder(s: State, e: Event, p: Pid)
    requires LocksOk(s) && FineEnabled(s, e) && p in s.procs && (e.Tick? || p != e.pid)
    requires s.rows.Keys <= s.hist.home.Keys
    ensures p in FineNext(s, e).procs && FineNext(s, e).procs[p] == s.procs[p]
    ensures HolderOk(FineNext(s, e), p)
  {
    assert HolderOk(s, p);
  }

  lemma OwnHolder(s: State, e: Event)
    requires FineEnabled(s, e) && !e.Tick?
    requires e.pid in s.procs ==> HolderOk(s, e.pid)
    ensures e.pid in FineNext(s, e).procs && HolderOk(FineNext(s, e), e.pid)
  {
  }

  lemma LockKept(s: State, e: Event, t: Token)
    requires FineEnabled(s, e) && t in FineNext(s, e).locks
    requires t in s.locks ==> LockOk(s, t)
    ensures LockOk(FineNext(s, e), t)
  {
  }

  lemma LocksStep(s: State, e: Event)
    requires LocksOk(s) && FineEnabled(s, e) && s.rows.Keys <= s.hist.home.Keys
    ensures LocksOk(FineNext(s, e))
  {
    var s' := FineNext(s, e);
    forall t | t in s'.locks ensures LockOk(s', t) {
      assert t in s.locks ==> LockOk(s, t);
      LockKept(s, e, t);
    }
    forall p | p in s'.procs ensures HolderOk(s', p) {
      if !e.Tick? && p == e.pid { OwnHolder(s, e); } else { OtherHolder(s, e, p); }
    }
  }

  // ---- the atomic run that a locking run simulates ----

  function AbsPhase(phase: Phase): Phase {
    match phase
    case Locked(token, at) => Starting(token, at)
    case Missed(_, _) => Denied
    case _ => phase
  }

  function AbsProcs(procs: map<Pid, Phase>): map<Pid, Phase> {
    map p | p in procs :: AbsPhase(procs[p])
  }

  /** Forget the locks; a request that found its row has not started, as seen from outside. */
  function Abs(s: State): State {
    s.(procs := AbsProcs(s.procs), locks := map[])
  }

  /** The atomic step that a locking step amounts to, if any: a hit takes effect at its commit,
      a miss at its select. */
  function AbsEvents(s: State, e: Event): seq<Event>
    requires FineEnabled(s, e)
  {
    match e
    case Lock(p) => if Usable(s.rows, s.procs[p].token, s.procs[p].at) then [] else [Revoke(p)]
    case Commit(p) => if s.procs[p].Locked? then [Revoke(p)] else [Reply(p)]
    case _ => [e]
  }

  lemma AbsMove(procs: map<Pid, Phase>, p: Pid, phase: Phase)
    ensures AbsProcs(procs[p := phase]) == AbsProcs(procs)[p := AbsPhase(phase)]
  {
  }

  lemma AbsSame(procs: map<Pid, Phase>, p: Pid, phase: Phase)
    requires p in procs && AbsPhase(procs[p]) == AbsPhase(phase)
    ensures AbsProcs(procs[p := phase]) == AbsProcs(procs)
  {
  }

  lemma LockSimulates(s: State, e: Event)
    requires LocksOk(s) && FineEnabled(s, e) && (e.Lock? || e.Commit?)
    ensures Valid(Abs(s), AbsEvents(s, e))
    ensures Run(Abs(s), AbsEvents(s, e)) == Abs(FineNext(s, e))
  {
    var p := e.pid;
    var phase' := FineNext(s, e).procs[p];
    assert HolderOk(s, p);
    AbsMove(s.procs, p, phase');
    if AbsEvents(s, e) == [] { AbsSame(s.procs, p, phase'); }
  }

  lemma OtherEnabled(s: State, e: Event)
    requires FineEnabled(s, e) && !e.Lock? && !e.Commit?
    ensures Enabled(Abs(s), e)
  {
  }

  lemma OwnPhaseOnly(s: State, e: Event)
    requires Enabled(s, e) && !e.Tick?
    ensures Next(s, e).procs == s.procs[e.pid := Next(s, e).procs[e.pid]]
  {
  }

  lemma SamePhase(s: State, e: Event)
    requires FineEnabled(s, e) && !e.Lock? && !e.Commit? && !e.Tick?
    requires Enabled(Abs(s), e)
    ensures FineNext(s, e).procs == Next(s, e).procs
    ensures Next(Abs(s), e).procs[e.pid] == AbsPhase(FineNext(s, e).procs[e.pid])
  {
  }

  /** The step does not see the difference. */
  lemma OtherPhase(s: State, e: Event)
    requires FineEnabled(s, e) && !e.Lock? && !e.Commit? && !e.Tick?
    requires Enabled(Abs(s), e)
    ensures FineNext(s, e).procs == s.procs[e.pid := FineNext(s, e).procs[e.pid]]
    ensures Next(Abs(s), e).procs == Abs(s).procs[e.pid := AbsPhase(FineNext(s, e).procs[e.pid])]
  {
    OwnPhaseOnly(s, e);
    OwnPhaseOnly(Abs(s), e);
    SamePhase(s, e);
  }

  lemma OtherTables(s: State, e: Event)
    requires FineEnabled(s, e) && !e.Lock? && !e.Commit?
    requires Enabled(Abs(s), e)
    ensures Next(Abs(s), e).(procs := map[], locks := map[]) == FineNext(s, e).(procs := map[], locks := map[])
    ensures Next(Abs(s), e).locks == map[]
  {
  }

  lemma OtherSimulates(s: State, e: Event)
    requires FineEnabled(s, e) && !e.Lock? && !e.Commit?
    ensures Enabled(Abs(s), e)
    ensures Next(Abs(s), e) == Abs(FineNext(s, e))
  {
    OtherEnabled(s, e);
    OtherTables(s, e);
    if !e.Tick? {
      OtherPhase(s, e);
      AbsMove(s.procs, e.pid, FineNext(s, e).procs[e.pid]);
    }
  }

  lemma StepSimulates(s: State, e: Event)
    requires LocksOk(s) && FineEnabled(s, e)
    ensures Valid(Abs(s), AbsEvents(s, e))
    ensures Run(Abs(s), AbsEvents(s, e)) == Abs(FineNext(s, e))
  {
    if e.Lock? || e.Commit? {
      LockSimulates(s, e);
    } else {
      OtherSimulates(s, e);
    }
  }

  ghost predicate FineInv(s: State) {
    LocksOk(s) && Inv(Abs(s))
  }

  lemma FineInvStep(s: State, e: Event)
    requires FineInv(s) && FineEnabled(s, e)
    ensures FineInv(FineNext(s, e))
  {
    assert s.rows.Keys <= s.hist.home.Keys by { assert RowsOk(s.hist, s.rows); }
    LocksStep(s, e);
    StepSimulates(s, e);
    InvRun(Abs(s), AbsEvents(s, e));
  }

  function AbsRun(s: State, es: seq<Event>): seq<Event>
    requires FineValid(s, es)
    decreases |es|
  {
    if es == [] then [] else AbsEvents(s, es[0]) + AbsRun(FineNext(s, es[0]), es[1..])
  }

  lemma {:induction false} RunSimulates(s: State, es: seq<Event>)
    requires FineInv(s) && FineValid(s, es)
    ensures FineInv(FineRun(s, es))
    ensures Valid(Abs(s), AbsRun(s, es))
    ensures Run(Abs(s), AbsRun(s, es)) == Abs(FineRun(s, es))
    decreases |es|
  {
    if es != [] {
      FineInvStep(s, es[0]);
      StepSimulates(s, es[0]);
      RunSimulates(FineNext(s, es[0]), es[1..]);
      AppendRuns(Abs(s), AbsEvents(s, es[0]), AbsRun(FineNext(s, es[0]), es[1..]));
    }
  }

  lemma {:induction false} AppendRuns(s: State, a: seq<Event>, b: seq<Event>)
    requires Valid(s, a) && Valid(Run(s, a), b)
    ensures Valid(s, a + b) && Run(s, a + b) == Run(Run(s, a), b)
    decreases |a|
  {
    if a == [] {
      assert a + b == b;
    } else {
      assert (a + b)[1..] == a[1..] + b;
      AppendRuns(Next(s, a[0]), a[1..], b);
    }
  }

  ghost predicate FineReachable(s: State) {
    exists retention, ttl, es ::
      FineValid(Init(retention, ttl), es) && s == FineRun(Init(retention, ttl), es)
  }

  /** The locking protocol refines the atomic one: same table, same history, same answers.  So
      all that RotationSafety proves of reachable states holds of Abs(s), hence of s. */
  lemma LockingRefinesAtomic(s: State)
    requires FineReachable(s)
    ensures FineInv(s) && Reachable(Abs(s))
    ensures Abs(s).rows == s.rows && Abs(s).hist == s.hist && Abs(s).clock == s.clock
    ensures forall p :: p in s.procs ==>
              p in Abs(s).procs && (s.procs[p].Finished? || s.procs[p].Won? ==> Abs(s).procs[p] == s.procs[p])
  {
    var retention, ttl, es :| FineValid(Init(retention, ttl), es) && s == FineRun(Init(retention, ttl), es);
    var s0 := Init(retention, ttl);
    InitInv(retention, ttl);
    assert Abs(s0) == s0;
    RunSimulates(s0, es);
    assert Valid(s0, AbsRun(s0, es)) && Run(s0, AbsRun(s0, es)) == Abs(s);
  }

  /** This commit gives the token to its request. */
  predicate FineObtains(s: State, e: Event, token: Token) {
    && e.Commit? && FineEnabled(s, e)
    && s.procs[e.pid].Locked? && s.procs[e.pid].token == token
  }

  lemma LockedIsUnspent(s: State, e: Event, token: Token)
    requires FineInv(s) && FineObtains(s, e, token)
    ensures token in s.rows && token !in s.hist.winner
  {
    assert HolderOk(s, e.pid);
    assert RowsOk(s.hist, s.rows);
  }

  lemma CommitSpends(s: State, e: Event, token: Token)
    requires FineInv(s) && FineObtains(s, e, token)
    ensures FineNext(s, e).procs[e.pid] == Won(token, s.procs[e.pid].at)
    ensures token in FineNext(s, e).hist.winner
  {
  }

  lemma FineHistoryGrows(s: State, es: seq<Event>)
    requires FineInv(s) && FineValid(s, es)
    ensures FineInv(FineRun(s, es))
    ensures s.hist.winner.Keys <= FineRun(s, es).hist.winner.Keys
  {
    RunSimulates(s, es);
    HistoryGrows(Abs(s), AbsRun(s, es));
  }

  /** With row locks, too, at most one request of a whole run obtains a given token: its commit
      never fails, and no later commit obtains the token again. */
  lemma FineObtainedOnce(s: State, e: Event, es: seq<Event>, f: Event, token: Token)
    requires FineReachable(s) && FineObtains(s, e, token) && FineValid(FineNext(s, e), es)
    ensures FineNext(s, e).procs[e.pid] == Won(token, s.procs[e.pid].at)
    ensures !FineObtains(FineRun(FineNext(s, e), es), f, token)
  {
    LockingRefinesAtomic(s);
    CommitSpends(s, e, token);
    FineInvStep(s, e);
    FineHistoryGrows(FineNext(s, e), es);
    var s2 := FineRun(FineNext(s, e), es);
    if FineObtains(s2, f, token) {
      LockedIsUnspent(s2, f, token);
    }
  }

  // ---- no deadlock, and no request runs forever ----

  /** A step of a request that has begun, other than its giving up. */
  predicate Work(e: Event) {
    !e.Tick? && !Begins(e) && !e.Abort?
  }

  predicate Begins(e: Event) {
    e.LoginBegin? || e.RefreshBegin? || e.LogoutRead? || e.PurgeBegin?
  }

  predicate Running(s: State, p: Pid) {
    p in s.procs && !s.procs[p].Finished?
  }

  lemma {:induction false} UnusedToken(used: set<Token>) returns (t: Token)
    ensures t !in used && forall u :: u in used ==> u < t
  {
    if used == {} {
      t := 0;
    } else {
      var u :| u in used;
      t := UnusedToken(used - {u});
      if t <= u { t := u + 1; }
      assert forall v :: v in used ==> v == u || v in used - {u};
    }
  }

  function AllPresented(procs: map<Pid, Phase>): set<Token> {
    set p | p in procs && Presented(procs[p]).Some? :: Presented(procs[p]).value
  }

  /** The next step of a request, when no lock stands in its way. */
  function NextWork(p: Pid, phase: Phase, issued: Token): Event {
    match phase
    case Starting(_, _) => Lock(p)
    case Locked(_, _) => Commit(p)
    case Missed(_, _) => Commit(p)
    case Denied => Reply(p)
    case Won(_, _) => Reread(p)
    case CheckingUser(_, _) => ReadUser(p, true)
    case Issuing(_, _) => Stamp(p)
    case Stamped(_, _, _) => Insert(p, issued)
    case Created(_, _) => Confirm(p)
    case Holding(_, _) => LogoutRevoke(p)
    case Saving(_, _, _) => Save(p)
    case Selecting(_) => PurgeSelect(p)
    case Deleting(_) => PurgeDelete(p)
    case Finished(_) => Abort(p)
  }

  /** The row locks that the next step has to wait for. */
  function Waits(phase: Phase): set<Token> {
    match phase
    case Starting(token, _) => {token}
    case Saving(token, _, changed) => if changed then {token} else {}
    case Deleting(ids) => ids
    case _ => {}
  }

  lemma FreeToMove(s: State, p: Pid, issued: Token)
    requires Running(s, p) && HolderOk(s, p) && issued !in s.hist.home && Unseen(s.procs, issued)
    requires Waits(s.procs[p]) !! s.locks.Keys
    ensures Work(NextWork(p, s.procs[p], issued)) && FineEnabled(s, NextWork(p, s.procs[p], issued))
  {
  }

  /** As long as a request is running, some running request can move.  Whoever waits for a row
      waits for a request that can commit. */
  lemma NoDeadlock(s: State, p: Pid)
    requires FineReachable(s) && Running(s, p)
    ensures exists e :: Work(e) && FineEnabled(s, e)
  {
    LockingRefinesAtomic(s);
    var issued := UnusedToken(s.hist.home.Keys + AllPresented(s.procs));
    assert HolderOk(s, p);
    if Waits(s.procs[p]) !! s.locks.Keys {
      FreeToMove(s, p, issued);
    } else {
      var t :| t in Waits(s.procs[p]) && t in s.locks;
      assert LockOk(s, t);
      assert Work(Commit(s.locks[t])) && FineEnabled(s, Commit(s.locks[t]));
    }
  }

  /** No request ever holds two row locks. */
  lemma OneLockEach(s: State, t: Token, u: Token)
    requires FineReachable(s) && t in s.locks && u in s.locks && s.locks[t] == s.locks[u]
    ensures t == u
  {
    LockingRefinesAtomic(s);
    assert LockOk(s, t) && LockOk(s, u);
  }

  const LONGEST := 8

  /** How many steps a request can still take. */
  function Rank(phase: Phase): nat {
    match phase
    case Starting(_, _) => 8
    case Locked(_, _) => 7
    case Missed(_, _) => 1
    case Denied => 1
    case Won(_, _) => 6
    case CheckingUser(_, _) => 5
    case Issuing(_, _) => 4
    case Stamped(_, _, _) => 3
    case Created(_, _) => 2
    case Holding(_, _) => 2
    case Saving(_, _, _) => 1
    case Selecting(_) => 2
    case Deleting(_) => 1
    case Finished(_) => 0
  }

  ghost function Total(procs: map<Pid, Phase>): nat {
    if procs == map[] then 0
    else
      var p :| p in procs;
      Rank(procs[p]) + Total(procs - {p})
  }

  lemma {:induction false} TotalSplit(procs: map<Pid, Phase>, p: Pid)
    requires p in procs
    ensures Total(procs) == Rank(procs[p]) + Total(procs - {p})
    decreases |procs|
  {
    var q :| q in procs && Total(procs) == Rank(procs[q]) + Total(procs - {q});
    if q != p {
      TotalSplit(procs - {q}, p);
      TotalSplit(procs - {p}, q);
      assert procs - {q} - {p} == procs - {p} - {q};
    }
  }

  lemma TotalMove(procs: map<Pid, Phase>, p: Pid, phase: Phase)
    ensures Total(procs[p := phase]) == Total(procs) - (if p in procs then Rank(procs[p]) else 0) + Rank(phase)
  {
    TotalSplit(procs[p := phase], p);
    assert procs[p := phase] - {p} == procs - {p};
    if p in procs { TotalSplit(procs, p); } else { assert procs - {p} == procs; }
  }

  /** Every step of a begun request, abort included, brings that request nearer its end. */
  lemma StepDescends(s: State, e: Event)
    requires FineEnabled(s, e) && !e.Tick?
    ensures e.pid in FineNext(s, e).procs
    ensures FineNext(s, e).procs == s.procs[e.pid := FineNext(s, e).procs[e.pid]]
    ensures !Begins(e) ==> e.pid in s.procs && Rank(FineNext(s, e).procs[e.pid]) < Rank(s.procs[e.pid])
    ensures Begins(e) ==> e.pid !in s.procs
  {
  }

  function Count(es: seq<Event>, begins: bool): nat {
    if es == [] then 0
    else (if !es[0].Tick? && Begins(es[0]) == begins then 1 else 0) + Count(es[1..], begins)
  }

  /** Whatever the schedule, n requests take at most LONGEST * n steps in all. */
  lemma {:induction false} RunsEnd(s: State, es: seq<Event>)
    requires FineValid(s, es)
    ensures Count(es, false) + Total(FineRun(s, es).procs) <= Total(s.procs) + LONGEST * Count(es, true)
    decreases |es|
  {
    if es != [] {
      var e := es[0];
      if !e.Tick? {
        StepDescends(s, e);
        TotalMove(s.procs, e.pid, FineNext(s, e).procs[e.pid]);
      }
      RunsEnd(FineNext(s, e), es[1..]);
    }
  }
}
