/** When is purging invisible to logins and refreshes?

    A run is followed in step with a shadow run in which no purge ever happens.  The answers of
    logins and refreshes agree at every point exactly if no step of theirs looks for a row that a
    purge has taken and that the step still needed.  Whether that can happen depends on the
    retention, on the tokens' lifetime and on the time that requests may take between their clock
    reading and their statements; the last section gives the exact bound. */
module RotationPurge {
  import opened Wrappers
  import opened TokenTable
  import opened Rotation
  import opened RotationChains

  predicate OfPurge(e: Event) {
    !e.Tick? && e.pid.PurgeJob?
  }

  /** The schedule without its purge steps. */
  function Erase(es: seq<Event>): seq<Event> {
    if es == [] then []
    else if OfPurge(es[0]) then Erase(es[1..])
    else [es[0]] + Erase(es[1..])
  }

  /** Logins and refreshes stand at the same point, with the same answers. */
  ghost predicate SameAnswers(s: State, z: State) {
    forall p: Pid :: p.LoginCall? || p.RefreshCall? ==>
      (p in s.procs <==> p in z.procs) && (p in s.procs ==> s.procs[p] == z.procs[p])
  }

  function Without(z: State, e: Event): State
    requires OfPurge(e) || Enabled(z, e)
  {
    if OfPurge(e) then z else Next(z, e)
  }

  /** Leaving out the purge steps changes no answer, at any point of the run. */
  ghost predicate Invisible(s: State, z: State, es: seq<Event>)
    requires Valid(s, es)
    decreases |es|
  {
    && SameAnswers(s, z)
    && (es != [] ==>
          && (OfPurge(es[0]) || Enabled(z, es[0]))
          && Invisible(Next(s, es[0]), Without(z, es[0]), es[1..]))
  }

  /** The step needs a row that is gone, but that would be there had nothing been purged: a
      locking select that would have found it active, or one of the two re-reads. */
  predicate Misses(s: State, z: State, e: Event)
    requires Enabled(s, e)
  {
    match e
    case Revoke(p) =>
      s.procs[p].token !in s.rows && Usable(z.rows, s.procs[p].token, s.procs[p].at)
    case Reread(p) => s.procs[p].token !in s.rows
    case Confirm(p) => s.procs[p].token !in s.rows
    case _ => false
  }

  predicate NeverMisses(s: State, z: State, es: seq<Event>)
    requires Valid(s, es)
    decreases |es|
  {
    es != [] ==>
      && !Misses(s, z, es[0])
      && (OfPurge(es[0]) || Enabled(z, es[0]))
      && NeverMisses(Next(s, es[0]), Without(z, es[0]), es[1..])
  }

  /** The tokens whose rows a request has seen. */
  function Known(phase: Phase): set<Token> {
    match phase
    case Won(token, _) => {token}
    case Created(token, _) => {token}
    case Holding(token, _) => {token}
    case Saving(token, _, _) => {token}
    case Deleting(ids) => ids
    case _ => {}
  }

  /** Requests run only their own use case. */
  predicate KindOk(p: Pid, phase: Phase) {
    match p
    case PurgeJob(_) => phase.Selecting? || phase.Deleting? || phase.Finished?
    case LogoutCall(_) => phase.Holding? || phase.Saving? || phase.Finished?
    case _ => !(phase.Selecting? || phase.Deleting? || phase.Holding? || phase.Saving?)
  }

  ghost predicate PhaseOk(h: History, p: Pid, phase: Phase) {
    KindOk(p, phase) && Known(phase) <= h.home.Keys
  }

  /** A logout may have ended early in the run with purges; nothing else may differ. */
  ghost predicate Paired(s: State, z: State, p: Pid)
    requires p in s.procs && !p.PurgeJob?
  {
    && p in z.procs
    && (s.procs[p] == z.procs[p] || (p.LogoutCall? && s.procs[p].Finished?))
  }

  ghost predicate RowsRel(s: State, z: State) {
    && z.rows.Keys == s.hist.home.Keys
    && forall t :: t in s.rows ==> t in z.rows && s.rows[t] == z.rows[t]
  }

  ghost predicate ProcsRel(s: State, z: State) {
    && (forall p :: p in s.procs ==> PhaseOk(s.hist, p, s.procs[p]))
    && (forall p :: p in s.procs && !p.PurgeJob? ==> Paired(s, z, p))
    && (forall p :: p in z.procs ==> p in s.procs && !p.PurgeJob? && KindOk(p, z.procs[p]))
  }

  /** The shadow has every row ever inserted, and the same rows where both have one. */
  ghost predicate Shadows(s: State, z: State) {
    && s.retention == z.retention && s.ttl == z.ttl && s.clock == z.clock && s.hist == z.hist
    && RowsRel(s, z)
    && ProcsRel(s, z)
  }

  lemma ShadowEnabled(s: State, z: State, e: Event)
    requires Shadows(s, z) && Enabled(s, e) && !OfPurge(e)
    ensures Enabled(z, e)
    ensures !e.Tick? && e.pid in s.procs ==> z.procs[e.pid] == s.procs[e.pid]
  {
  }

  lemma PurgeStep(s: State, e: Event)
    requires Enabled(s, e) && OfPurge(e)
    requires e.pid in s.procs ==> PhaseOk(s.hist, e.pid, s.procs[e.pid])
    requires s.rows.Keys <= s.hist.home.Keys
    ensures
      var s' := Next(s, e);
      && s'.hist == s.hist && s'.clock == s.clock && s'.retention == s.retention && s'.ttl == s.ttl
      && s'.procs == s.procs[e.pid := s'.procs[e.pid]]
      && PhaseOk(s'.hist, e.pid, s'.procs[e.pid])
      && (forall t :: t in s'.rows ==> t in s.rows && s'.rows[t] == s.rows[t])
  {
  }

  lemma ShadowPurge(s: State, z: State, e: Event)
    requires Shadows(s, z) && Enabled(s, e) && OfPurge(e)
    ensures Shadows(Next(s, e), z)
  {
    PurgeStep(s, e);
    var s' := Next(s, e);
    forall p | p in s'.procs && !p.PurgeJob? ensures Paired(s', z, p) { assert Paired(s, z, p); }
  }

  lemma ShadowHistoryWrite(s: State, z: State, e: Event)
    requires RowsRel(s, z) && s.hist == z.hist && Enabled(s, e) && Enabled(z, e) && !Misses(s, z, e)
    requires e.Revoke? || e.Insert?
    requires z.procs[e.pid] == s.procs[e.pid]
    ensures Next(s, e).hist == Next(z, e).hist
    ensures s.hist.home.Keys <= Next(s, e).hist.home.Keys
  {
  }

  lemma ShadowHistory(s: State, z: State, e: Event)
    requires Shadows(s, z) && Enabled(s, e) && !OfPurge(e) && Enabled(z, e) && !Misses(s, z, e)
    requires !e.Tick? && e.pid in s.procs ==> z.procs[e.pid] == s.procs[e.pid]
    ensures Next(s, e).hist == Next(z, e).hist
    ensures s.hist.home.Keys <= Next(s, e).hist.home.Keys
  {
    if e.Revoke? || e.Insert? {
      ShadowHistoryWrite(s, z, e);
    } else {
      QuietStep(s, e);
      QuietStep(z, e);
    }
  }

  lemma ShadowRowsWrite(s: State, z: State, e: Event)
    requires RowsRel(s, z) && Enabled(s, e) && Enabled(z, e) && z.ttl == s.ttl
    requires e.Revoke? || e.Save? || e.Insert?
    requires z.procs[e.pid] == s.procs[e.pid]
    requires Known(s.procs[e.pid]) <= s.hist.home.Keys && !Misses(s, z, e)
    ensures RowsRel(Next(s, e), Next(z, e))
  {
  }

  lemma ShadowRowsRead(s: State, z: State, e: Event)
    requires RowsRel(s, z) && Enabled(s, e) && !OfPurge(e) && Enabled(z, e)
    requires !e.Revoke? && !e.Save? && !e.Insert? && !e.PurgeDelete?
    ensures RowsRel(Next(s, e), Next(z, e))
  {
  }

  lemma OwnKindOk(s: State, e: Event)
    requires Enabled(s, e) && !e.Tick? && !OfPurge(e)
    requires e.pid in s.procs ==> KindOk(e.pid, s.procs[e.pid])
    ensures KindOk(e.pid, Next(s, e).procs[e.pid])
  {
  }

  lemma OwnKnown(s: State, e: Event)
    requires Enabled(s, e) && !e.Tick? && !OfPurge(e) && s.rows.Keys <= s.hist.home.Keys
    requires e.pid in s.procs ==> PhaseOk(s.hist, e.pid, s.procs[e.pid])
    ensures Known(Next(s, e).procs[e.pid]) <= Next(s, e).hist.home.Keys
  {
  }

  lemma OwnPhaseOk(s: State, e: Event)
    requires Enabled(s, e) && !e.Tick? && !OfPurge(e) && s.rows.Keys <= s.hist.home.Keys
    requires e.pid in s.procs ==> PhaseOk(s.hist, e.pid, s.procs[e.pid])
    ensures PhaseOk(Next(s, e).hist, e.pid, Next(s, e).procs[e.pid])
  {
    OwnKindOk(s, e);
    OwnKnown(s, e);
  }

  lemma OwnPhasePaired(s: State, z: State, e: Event)
    requires RowsRel(s, z) && s.clock == z.clock && Enabled(s, e) && !OfPurge(e) && !e.Tick? && Enabled(z, e)
    requires e.pid in s.procs ==> z.procs[e.pid] == s.procs[e.pid] && PhaseOk(s.hist, e.pid, s.procs[e.pid])
    requires !Misses(s, z, e)
    ensures Paired(Next(s, e), Next(z, e), e.pid)
  {
  }

  lemma ShadowStep(s: State, z: State, e: Event)
    requires Shadows(s, z) && Enabled(s, e) && !Misses(s, z, e)
    ensures OfPurge(e) || Enabled(z, e)
    ensures Shadows(Next(s, e), Without(z, e))
  {
    if OfPurge(e) {
      ShadowPurge(s, z, e);
    } else {
      ShadowEnabled(s, z, e);
      if !e.Tick? && e.pid in s.procs { assert PhaseOk(s.hist, e.pid, s.procs[e.pid]); }
      ShadowHistory(s, z, e);
      ShadowRows(s, z, e);
      ShadowProcs(s, z, e);
      SettingsFixed(s, e);
      SettingsFixed(z, e);
    }
  }

  lemma SettingsFixed(s: State, e: Event)
    requires Enabled(s, e)
    ensures Next(s, e).retention == s.retention && Next(s, e).ttl == s.ttl
    ensures Next(s, e).clock == s.clock + (if e.Tick? then e.delay else 0)
  {
  }

  lemma ShadowRows(s: State, z: State, e: Event)
    requires Shadows(s, z) && Enabled(s, e) && !OfPurge(e) && Enabled(z, e) && !Misses(s, z, e)
    requires !e.Tick? && e.pid in s.procs ==> z.procs[e.pid] == s.procs[e.pid] && PhaseOk(s.hist, e.pid, s.procs[e.pid])
    ensures RowsRel(Next(s, e), Next(z, e))
  {
    if e.Revoke? || e.Save? || e.Insert? {
      ShadowRowsWrite(s, z, e);
    } else {
      ShadowRowsRead(s, z, e);
    }
  }

  lemma OtherPaired(s: State, z: State, e: Event, p: Pid)
    requires Enabled(s, e) && Enabled(z, e) && (e.Tick? || p != e.pid)
    requires p in s.procs && !p.PurgeJob? && Paired(s, z, p)
    ensures p in Next(s, e).procs && Paired(Next(s, e), Next(z, e), p)
  {
    OthersStay(s, e, p);
    OthersStay(z, e, p);
  }

  lemma OthersStay(s: State, e: Event, p: Pid)
    requires Enabled(s, e) && (e.Tick? || p != e.pid) && p in s.procs
    ensures p in Next(s, e).procs && Next(s, e).procs[p] == s.procs[p]
  {
  }

  lemma OtherPhaseOk(s: State, e: Event, p: Pid, h: History)
    requires Enabled(s, e) && (e.Tick? || p != e.pid) && p in Next(s, e).procs
    requires forall q :: q in s.procs ==> PhaseOk(s.hist, q, s.procs[q])
    requires s.hist.home.Keys <= h.home.Keys
    ensures PhaseOk(h, p, Next(s, e).procs[p])
  {
    PhaseAfter(s, e, p);
  }

  lemma OwnProcs(s: State, z: State, e: Event)
    requires Shadows(s, z) && Enabled(s, e) && !OfPurge(e) && Enabled(z, e) && !Misses(s, z, e) && !e.Tick?
    ensures
      var s', z' := Next(s, e), Next(z, e);
      && PhaseOk(s'.hist, e.pid, s'.procs[e.pid]) && Paired(s', z', e.pid) && KindOk(e.pid, z'.procs[e.pid])
  {
    ShadowEnabled(s, z, e);
    if e.pid in s.procs { assert PhaseOk(s.hist, e.pid, s.procs[e.pid]); }
    OwnPhaseOk(s, e);
    OwnKindOk(z, e);
    OwnPhasePaired(s, z, e);
  }

  lemma ShadowProcs(s: State, z: State, e: Event)
    requires Shadows(s, z) && Enabled(s, e) && !OfPurge(e) && Enabled(z, e) && !Misses(s, z, e)
    ensures ProcsRel(Next(s, e), Next(z, e))
  {
    var s', z' := Next(s, e), Next(z, e);
    ShadowEnabled(s, z, e);
    ShadowHistory(s, z, e);
    if !e.Tick? { OwnProcs(s, z, e); }
    forall p | p in s'.procs ensures PhaseOk(s'.hist, p, s'.procs[p]) && (!p.PurgeJob? ==> Paired(s', z', p)) {
      if e.Tick? || p != e.pid {
        OtherPhaseOk(s, e, p, s'.hist);
        PhaseAfter(s, e, p);
        if !p.PurgeJob? { OtherPaired(s, z, e, p); }
      }
    }
    forall p | p in z'.procs ensures p in s'.procs && !p.PurgeJob? && KindOk(p, z'.procs[p]) {
      if e.Tick? || p != e.pid {
        PhaseAfter(z, e, p);
        OthersStay(s, e, p);
      }
    }
  }

  lemma ShadowsAnswer(s: State, z: State)
    requires Shadows(s, z)
    ensures SameAnswers(s, z)
  {
  }

  lemma MissDiffers(s: State, z: State, e: Event)
    requires RowsRel(s, z) && Enabled(s, e) && Enabled(z, e) && Misses(s, z, e)
    requires z.procs[e.pid] == s.procs[e.pid] && Known(s.procs[e.pid]) <= s.hist.home.Keys
    ensures e.pid in Next(s, e).procs && e.pid in Next(z, e).procs
    ensures Next(s, e).procs[e.pid] != Next(z, e).procs[e.pid]
  {
  }

  /** A step that misses its row is answered differently than without the purge. */
  lemma MissShows(s: State, z: State, e: Event)
    requires Shadows(s, z) && Enabled(s, e) && Misses(s, z, e)
    ensures !OfPurge(e) && Enabled(z, e)
    ensures !SameAnswers(Next(s, e), Next(z, e))
  {
    assert PhaseOk(s.hist, e.pid, s.procs[e.pid]);
    assert Paired(s, z, e.pid);
    MissDiffers(s, z, e);
  }

  /** Purging changes no answer of a login or refresh, at any point of the run, if and only if no
      step of theirs misses its row. */
  lemma {:induction false} InvisibleExactly(s: State, z: State, es: seq<Event>)
    requires Shadows(s, z) && Valid(s, es)
    ensures Invisible(s, z, es) <==> NeverMisses(s, z, es)
    decreases |es|
  {
    ShadowsAnswer(s, z);
    if es != [] {
      var e := es[0];
      if Misses(s, z, e) {
        MissShows(s, z, e);
      } else {
        ShadowStep(s, z, e);
        InvisibleExactly(Next(s, e), Without(z, e), es[1..]);
      }
    }
  }

  lemma InitShadows(retention: int, ttl: int)
    ensures Shadows(Init(retention, ttl), Init(retention, ttl))
  {
  }

  /** What Invisible means for the schedule without its purge steps. */
  lemma {:induction false} InvisibleErases(s: State, z: State, es: seq<Event>)
    requires Valid(s, es) && Invisible(s, z, es)
    ensures Valid(z, Erase(es)) && SameAnswers(Run(s, es), Run(z, Erase(es)))
    decreases |es|
  {
    if es != [] {
      InvisibleErases(Next(s, es[0]), Without(z, es[0]), es[1..]);
      if !OfPurge(es[0]) { assert Erase(es)[1..] == Erase(es[1..]); }
    }
  }

  // ---- a bound on lateness that rules misses out ----

  /** Between reading the clock and the statement that relies on it, at most `patience` passes. */
  predicate Timely(s: State, e: Event, patience: int)
    requires Enabled(s, e)
  {
    match e
    case Revoke(p) => s.clock <= s.procs[p].at + patience
    case Reread(p) => s.clock <= s.procs[p].at + patience
    case Confirm(p) => s.clock <= s.procs[p].at + patience
    case Save(p) => s.clock <= s.procs[p].at + patience
    case _ => true
  }

  predicate AllTimely(s: State, es: seq<Event>, patience: int)
    requires Valid(s, es)
    decreases |es|
  {
    es != [] ==> Timely(s, es[0], patience) && AllTimely(Next(s, es[0]), es[1..], patience)
  }

  /** How long before an instant at which it can be active a token may have been issued. */
  function Span(ttl: int): int {
    if ttl <= 0 then 0 else ttl - 1
  }

  /** How much older than a refresh the time may be that a late logout writes into its row. */
  function Slack(patience: int, ttl: int): int {
    if patience < Span(ttl) then patience else Span(ttl)
  }

  predicate Enough(s: State, patience: int) {
    0 <= patience && 0 <= s.ttl && patience + Slack(patience, s.ttl) <= s.retention
  }

  /** A row that no timely request can still find active. */
  predicate Dead(s: State, row: Row) {
    row.revoked.Some? || row.expires < s.clock - s.retention
  }

  /** Purged rows, and rows that a purge is about to delete, are dead. */
  ghost predicate PurgedDead(s: State, z: State) {
    && (forall t :: t in z.rows && t !in s.rows ==> Dead(s, z.rows[t]))
    && (forall p :: p in s.procs && s.procs[p].Deleting? ==>
          forall t :: t in s.procs[p].ids ==> t in z.rows && Dead(s, z.rows[t]))
    && (forall p :: p in s.procs && s.procs[p].Selecting? ==> s.procs[p].cutoff <= s.clock - s.retention)
  }

  /** Clock readings lie in the past. */
  ghost predicate ClocksOk(s: State) {
    forall p | p in s.procs ::
      var phase := s.procs[p];
      phase.Starting? || phase.Stamped? || phase.Won? || phase.Created? ==> phase.at <= s.clock
  }

  /** A row expires one lifetime after its issue; it is presented and read only after that. */
  ghost predicate TimesOk(z: State) {
    && (forall t :: t in z.rows ==> z.rows[t].expires == z.rows[t].issued + z.ttl && z.rows[t].issued <= z.clock)
    && (forall p :: p in z.procs && (z.procs[p].Holding? || z.procs[p].Saving?) ==> z.procs[p].token in z.rows)
    && (forall p :: p in z.procs && z.procs[p].Saving? ==> z.rows[z.procs[p].token].issued <= z.procs[p].at)
    && (forall p :: p in z.procs && z.procs[p].Starting? && z.procs[p].token in z.rows ==>
          z.rows[z.procs[p].token].issued <= z.procs[p].at)
  }

  /** The row is there in the shadow run, expires after `at`, and was not revoked long before. */
  predicate RowFloor(z: State, t: Token, at: int, patience: int) {
    && t in z.rows
    && at <= z.rows[t].expires
    && at - Span(z.ttl) <= z.rows[t].issued
    && (z.rows[t].revoked.Some? ==> at - Slack(patience, z.ttl) <= z.rows[t].revoked.value)
  }

  /** The row is there, and no purge is about to delete it. */
  ghost predicate Safe(s: State, t: Token) {
    && t in s.rows
    && forall q :: q in s.procs && s.procs[q].Deleting? ==> t !in s.procs[q].ids
  }

  /** A request about to re-read its row will find it, up to `patience` after `at`. */
  ghost predicate WillFind(s: State, z: State, p: Pid, patience: int)
    requires p in s.procs && (s.procs[p].Won? || s.procs[p].Created?)
  {
    var t, at := s.procs[p].token, s.procs[p].at;
    && RowFloor(z, t, at, patience)
    && (s.clock <= at + patience ==> Safe(s, t))
  }

  ghost predicate AllWillFind(s: State, z: State, patience: int) {
    forall p :: p in s.procs && (s.procs[p].Won? || s.procs[p].Created?) ==> WillFind(s, z, p, patience)
  }

  lemma TimelyNeverMisses(s: State, z: State, e: Event, patience: int)
    requires Shadows(s, z) && Enabled(s, e) && Timely(s, e, patience)
    requires Enough(s, patience) && PurgedDead(s, z) && AllWillFind(s, z, patience)
    ensures !Misses(s, z, e)
  {
  }

  /** What a step of the shadow run does to a row: it may revoke it, with a time to account for. */
  lemma ShadowRowStep(z: State, e: Event, t: Token)
    requires OfPurge(e) || Enabled(z, e)
    requires t in z.rows && z.rows.Keys <= z.hist.home.Keys
    requires forall p :: p in z.procs ==> !z.procs[p].Deleting?
    ensures t in Without(z, e).rows && Without(z, e).rows[t].expires == z.rows[t].expires
    ensures
      var revoked' := Without(z, e).rows[t].revoked;
      || revoked' == z.rows[t].revoked
      || (!OfPurge(e) && e.Revoke? && z.procs[e.pid].token == t && revoked' == Some(z.procs[e.pid].at)
          && z.rows[t].revoked.None?)
      || (!OfPurge(e) && e.Save? && z.procs[e.pid].changed && z.procs[e.pid].token == t
          && revoked' == Some(z.procs[e.pid].at))
  {
  }

  lemma NoPurgeInShadow(s: State, z: State)
    requires ProcsRel(s, z)
    ensures forall p :: p in z.procs ==> !z.procs[p].Deleting?
  {
  }

  lemma DeadStays(s: State, z: State, e: Event, t: Token)
    requires Shadows(s, z) && Enabled(s, e) && (OfPurge(e) || Enabled(z, e))
    requires t in z.rows && Dead(s, z.rows[t])
    ensures t in Without(z, e).rows && Dead(Next(s, e), Without(z, e).rows[t])
  {
    NoPurgeInShadow(s, z);
    ShadowRowStep(z, e, t);
  }

  lemma PurgedRowsDead(s: State, z: State, e: Event, t: Token)
    requires Shadows(s, z) && PurgedDead(s, z) && Enabled(s, e) && (OfPurge(e) || Enabled(z, e))
    requires t in Without(z, e).rows && t !in Next(s, e).rows
    ensures Dead(Next(s, e), Without(z, e).rows[t])
  {
    if t in z.rows {
      assert Dead(s, z.rows[t]);
      DeadStays(s, z, e, t);
    }
  }

  lemma SelectedDead(s: State, z: State, e: Event)
    requires RowsRel(s, z) && Enabled(s, e) && e.PurgeSelect?
    requires s.procs[e.pid].cutoff <= s.clock - s.retention
    ensures
      var phase := Next(s, e).procs[e.pid];
      phase.Deleting? ==> forall t :: t in phase.ids ==> t in z.rows && Dead(s, z.rows[t])
  {
  }

  /** A request's phase after a step is its old one, unless the step is its own. */
  lemma PhaseAfter(s: State, e: Event, p: Pid)
    requires Enabled(s, e) && p in Next(s, e).procs && (e.Tick? || p != e.pid)
    ensures p in s.procs && Next(s, e).procs[p] == s.procs[p]
  {
  }

  lemma PurgedDeadStep(s: State, z: State, e: Event)
    requires Shadows(s, z) && PurgedDead(s, z) && Enabled(s, e) && (OfPurge(e) || Enabled(z, e))
    ensures PurgedDead(Next(s, e), Without(z, e))
  {
    var s', z' := Next(s, e), Without(z, e);
    forall t | t in z'.rows && t !in s'.rows ensures Dead(s', z'.rows[t]) { PurgedRowsDead(s, z, e, t); }
    forall p | p in s'.procs && s'.procs[p].Deleting?
      ensures forall t :: t in s'.procs[p].ids ==> t in z'.rows && Dead(s', z'.rows[t])
    {
      DeletingDead(s, z, e, p);
    }
    forall p | p in s'.procs && s'.procs[p].Selecting? ensures s'.procs[p].cutoff <= s'.clock - s'.retention {
      if e.Tick? || p != e.pid { PhaseAfter(s, e, p); }
    }
  }

  lemma DeletingDead(s: State, z: State, e: Event, p: Pid)
    requires Shadows(s, z) && PurgedDead(s, z) && Enabled(s, e) && (OfPurge(e) || Enabled(z, e))
    requires p in Next(s, e).procs && Next(s, e).procs[p].Deleting?
    ensures forall t :: t in Next(s, e).procs[p].ids ==>
              t in Without(z, e).rows && Dead(Next(s, e), Without(z, e).rows[t])
  {
    forall t | t in Next(s, e).procs[p].ids
      ensures t in Without(z, e).rows && Dead(Next(s, e), Without(z, e).rows[t])
    {
      if e.Tick? || p != e.pid { PhaseAfter(s, e, p); } else { SelectedDead(s, z, e); }
      DeadStays(s, z, e, t);
    }
  }

  lemma ClocksStep(s: State, e: Event)
    requires ClocksOk(s) && Enabled(s, e)
    ensures ClocksOk(Next(s, e))
  {
  }

  lemma TimesStep(s: State, z: State, e: Event)
    requires Shadows(s, z) && ClocksOk(s) && TimesOk(z) && Enabled(s, e) && (OfPurge(e) || Enabled(z, e))
    ensures TimesOk(Without(z, e))
  {
    if !OfPurge(e) {
      ShadowEnabled(s, z, e);
      NoPurgeInShadow(s, z);
      TimesRows(z, e);
      TimesProcs(z, e);
      NewUnseen(z, e);
      assert forall p :: p in Next(z, e).procs ==> PhaseTimes(z, Next(z, e).procs[p]);
    }
  }

  lemma TimesRows(z: State, e: Event)
    requires TimesOk(z) && Enabled(z, e) && !e.PurgeDelete?
    requires e.Insert? ==> z.procs[e.pid].at <= z.clock && e.issued !in z.rows
    ensures
      var z' := Next(z, e);
      forall t :: t in z'.rows ==>
        && z'.rows[t].expires == z'.rows[t].issued + z'.ttl && z'.rows[t].issued <= z'.clock
        && (t in z.rows ==> z'.rows[t].issued == z.rows[t].issued)
    ensures z.rows.Keys <= Next(z, e).rows.Keys
  {
  }

  /** The phases of one request after one step. */
  ghost predicate PhaseTimes(z: State, phase: Phase) {
    && (phase.Holding? || phase.Saving? ==> phase.token in z.rows)
    && (phase.Saving? && phase.token in z.rows ==> z.rows[phase.token].issued <= phase.at)
    && (phase.Starting? && phase.token in z.rows ==> z.rows[phase.token].issued <= phase.at)
  }

  lemma OwnTimes(z: State, e: Event)
    requires TimesOk(z) && Enabled(z, e) && !e.Tick?
    ensures PhaseTimes(z, Next(z, e).procs[e.pid])
  {
  }

  lemma TimesProcs(z: State, e: Event)
    requires TimesOk(z) && Enabled(z, e)
    ensures forall p :: p in Next(z, e).procs ==> PhaseTimes(z, Next(z, e).procs[p])
  {
    forall p | p in Next(z, e).procs ensures PhaseTimes(z, Next(z, e).procs[p]) {
      if e.Tick? || p != e.pid { PhaseAfter(z, e, p); } else { OwnTimes(z, e); }
    }
  }

  /** A row that is new was presented by nobody. */
  lemma NewUnseen(z: State, e: Event)
    requires Enabled(z, e)
    ensures
      var z' := Next(z, e);
      forall p :: p in z'.procs && z'.procs[p].Starting? && z'.procs[p].token !in z.rows ==>
        z'.procs[p].token !in z'.rows
  {
    if e.Insert? { assert forall p :: p in z.procs ==> Presented(z.procs[p]) != Some(e.issued); }
  }

  /** A row to be re-read in time is not selected by a purge, which looks `retention` back. */
  lemma NotSelected(s: State, z: State, e: Event, p: Pid, patience: int)
    requires RowsRel(s, z) && s.ttl == z.ttl && PurgedDead(s, z) && Enabled(s, e) && e.PurgeSelect?
    requires p in s.procs && (s.procs[p].Won? || s.procs[p].Created?) && WillFind(s, z, p, patience)
    requires Enough(s, patience) && s.clock <= s.procs[p].at + patience
    ensures s.procs[p].token !in PurgeableTokens(s.rows, s.procs[e.pid].cutoff)
  {
  }

  /** A time that is written late into a row is not older than the slack. */
  lemma WrittenFloor(s: State, z: State, e: Event, t: Token, at: int, patience: int)
    requires Enabled(s, e) && Timely(s, e, patience) && s.ttl == z.ttl
    requires e.Revoke? || (e.Save? && s.procs[e.pid].changed)
    requires e.pid in z.procs && z.procs[e.pid] == s.procs[e.pid] && s.procs[e.pid].token == t
    requires RowFloor(z, t, at, patience) && at <= s.clock && TimesOk(z)
    ensures at - Slack(patience, z.ttl) <= s.procs[e.pid].at
  {
  }

  lemma RowFloorStep(s: State, z: State, e: Event, t: Token, at: int, patience: int)
    requires Shadows(s, z) && Enabled(s, e) && (OfPurge(e) || Enabled(z, e)) && Timely(s, e, patience)
    requires RowFloor(z, t, at, patience) && at <= s.clock && TimesOk(z)
    ensures RowFloor(Without(z, e), t, at, patience)
  {
    NoPurgeInShadow(s, z);
    ShadowRowStep(z, e, t);
    if !OfPurge(e) {
      ShadowEnabled(s, z, e);
      TimesFixed(z, e, t);
      if (e.Revoke? || (e.Save? && s.procs[e.pid].changed)) && s.procs[e.pid].token == t {
        WrittenFloor(s, z, e, t, at, patience);
      }
    }
  }

  lemma TimesFixed(z: State, e: Event, t: Token)
    requires Enabled(z, e) && !e.PurgeDelete? && t in z.rows && z.rows.Keys <= z.hist.home.Keys
    ensures t in Next(z, e).rows && Next(z, e).rows[t].issued == z.rows[t].issued && Next(z, e).ttl == z.ttl
  {
  }

  lemma SafeStep(s: State, e: Event, t: Token)
    requires Enabled(s, e) && Safe(s, t)
    requires e.PurgeSelect? ==> t !in PurgeableTokens(s.rows, s.procs[e.pid].cutoff)
    ensures Safe(Next(s, e), t)
  {
  }

  lemma OldWillFindStep(s: State, z: State, e: Event, p: Pid, patience: int)
    requires Shadows(s, z) && Enabled(s, e) && (OfPurge(e) || Enabled(z, e)) && Timely(s, e, patience)
    requires PurgedDead(s, z) && ClocksOk(s) && TimesOk(z) && Enough(s, patience)
    requires e.Tick? || p != e.pid
    requires p in s.procs && (s.procs[p].Won? || s.procs[p].Created?) && WillFind(s, z, p, patience)
    requires p in Next(s, e).procs
    ensures Next(s, e).procs[p] == s.procs[p] && WillFind(Next(s, e), Without(z, e), p, patience)
  {
    var t, at := s.procs[p].token, s.procs[p].at;
    PhaseAfter(s, e, p);
    RowFloorStep(s, z, e, t, at, patience);
    if Next(s, e).clock <= at + patience {
      if e.PurgeSelect? { NotSelected(s, z, e, p, patience); }
      SafeStep(s, e, t);
    }
  }

  /** A request that has just revoked or inserted a row will find it when it re-reads it. */
  lemma NewWillFind(s: State, z: State, e: Event, patience: int)
    requires Shadows(s, z) && Enabled(s, e) && Enabled(z, e) && Timely(s, e, patience) && !Misses(s, z, e)
    requires PurgedDead(s, z) && ClocksOk(s) && TimesOk(z)
    requires Enough(s, patience)
    requires e.Revoke? || e.Insert?
    requires Next(s, e).procs[e.pid].Won? || Next(s, e).procs[e.pid].Created?
    ensures WillFind(Next(s, e), Next(z, e), e.pid, patience)
  {
    var s', z' := Next(s, e), Next(z, e);
    var t, at := s'.procs[e.pid].token, s'.procs[e.pid].at;
    ShadowEnabled(s, z, e);
    assert RowFloor(z', t, at, patience);
    forall q | q in s'.procs
      ensures s'.procs[q].Deleting? ==> t !in s'.procs[q].ids
    {
      if q != e.pid {
        PhaseAfter(s, e, q);
        assert PhaseOk(s.hist, q, s.procs[q]);
      }
    }
  }

  lemma AllWillFindStep(s: State, z: State, e: Event, patience: int)
    requires Shadows(s, z) && Enabled(s, e) && (OfPurge(e) || Enabled(z, e))
    requires Timely(s, e, patience) && !Misses(s, z, e)
    requires PurgedDead(s, z) && ClocksOk(s) && TimesOk(z) && AllWillFind(s, z, patience)
    requires Enough(s, patience)
    ensures AllWillFind(Next(s, e), Without(z, e), patience)
  {
    var s' := Next(s, e);
    forall p | p in s'.procs && (s'.procs[p].Won? || s'.procs[p].Created?)
      ensures WillFind(s', Without(z, e), p, patience)
    {
      if e.Tick? || p != e.pid {
        PhaseAfter(s, e, p);
        OldWillFindStep(s, z, e, p, patience);
      } else {
        OnlyThenReread(s, e);
        ShadowEnabled(s, z, e) by { KindOfNext(s, z, e); }
        NewWillFind(s, z, e, patience);
      }
    }
  }

  lemma OnlyThenReread(s: State, e: Event)
    requires Enabled(s, e) && !e.Tick?
    requires Next(s, e).procs[e.pid].Won? || Next(s, e).procs[e.pid].Created?
    ensures e.Revoke? || e.Insert?
  {
  }

  lemma KindOfNext(s: State, z: State, e: Event)
    requires Shadows(s, z) && Enabled(s, e) && (e.Revoke? || e.Insert?)
    ensures !OfPurge(e)
  {
  }

  /** Timely runs, followed with their shadow. */
  ghost predicate TimelyInv(s: State, z: State, patience: int) {
    && Shadows(s, z)
    && PurgedDead(s, z) && ClocksOk(s) && TimesOk(z)
    && AllWillFind(s, z, patience)
  }

  lemma TimelyStep(s: State, z: State, e: Event, patience: int)
    requires TimelyInv(s, z, patience) && Enabled(s, e) && Timely(s, e, patience)
    requires Enough(s, patience)
    ensures !Misses(s, z, e) && (OfPurge(e) || Enabled(z, e))
    ensures TimelyInv(Next(s, e), Without(z, e), patience)
  {
    TimelyNeverMisses(s, z, e, patience);
    ShadowStep(s, z, e);
    PurgedDeadStep(s, z, e);
    ClocksStep(s, e);
    TimesStep(s, z, e);
    AllWillFindStep(s, z, e, patience);
  }

  lemma {:induction false} TimelyRun(s: State, z: State, es: seq<Event>, patience: int)
    requires TimelyInv(s, z, patience) && Valid(s, es) && AllTimely(s, es, patience)
    requires Enough(s, patience)
    ensures NeverMisses(s, z, es)
    decreases |es|
  {
    if es != [] {
      TimelyStep(s, z, es[0], patience);
      SettingsFixed(s, es[0]);
      TimelyRun(Next(s, es[0]), Without(z, es[0]), es[1..], patience);
    }
  }

  // ---- the results, from the empty table ----

  /** For every schedule: purging changes no login's and no refresh's answer at any point exactly
      if none of their steps misses its row; then the schedule without its purge steps runs too,
      with the same answers. */
  lemma PurgeInvisibleExactly(retention: int, ttl: int, es: seq<Event>)
    requires Valid(Init(retention, ttl), es)
    ensures
      var s := Init(retention, ttl);
      && (Invisible(s, s, es) <==> NeverMisses(s, s, es))
      && (NeverMisses(s, s, es) ==> Valid(s, Erase(es)) && SameAnswers(Run(s, es), Run(s, Erase(es))))
  {
    var s := Init(retention, ttl);
    InitShadows(retention, ttl);
    InvisibleExactly(s, s, es);
    if Invisible(s, s, es) { InvisibleErases(s, s, es); }
  }

  /** If the retention exceeds the lateness of every request by the slack, purging is invisible. */
  lemma PurgeInvisibleWhenTimely(retention: int, ttl: int, es: seq<Event>, patience: int)
    requires 0 <= ttl && 0 <= patience && patience + Slack(patience, ttl) <= retention
    requires Valid(Init(retention, ttl), es) && AllTimely(Init(retention, ttl), es, patience)
    ensures
      var s := Init(retention, ttl);
      Valid(s, Erase(es)) && SameAnswers(Run(s, es), Run(s, Erase(es)))
  {
    var s := Init(retention, ttl);
    InitShadows(retention, ttl);
    TimelyRun(s, s, es, patience);
    PurgeInvisibleExactly(retention, ttl, es);
  }

  /** A timely run in which some step misses its row. */
  ghost predicate Missing(s: State, z: State, es: seq<Event>, patience: int) {
    Valid(s, es) && AllTimely(s, es, patience) && !NeverMisses(s, z, es)
  }

  lemma MissingEarlier(s: State, z: State, e: Event, es: seq<Event>, patience: int)
    requires Enabled(s, e) && Timely(s, e, patience) && (OfPurge(e) || Enabled(z, e))
    requires Missing(Next(s, e), Without(z, e), es, patience)
    ensures Missing(s, z, [e] + es, patience)
  {
  }

  lemma MissingNow(s: State, z: State, e: Event, patience: int)
    requires Enabled(s, e) && Timely(s, e, patience) && Misses(s, z, e)
    ensures Missing(s, z, [e], patience)
  {
  }

  const SIGN_IN := LoginCall(0)
  const SIGN_OUT := LogoutCall(0)
  const RENEW := RefreshCall(0)
  const CRON := PurgeJob(0)

  /** SIGN_OUT reads token 0 at time 0. */
  function StaleRead(): seq<Event> {
    [LogoutRead(SIGN_OUT, 0, 0), LogoutRevoke(SIGN_OUT)]
  }

  /** At `slack` RENEW spends the token, and then SIGN_OUT writes the older time back. */
  function StaleWrite(slack: nat): seq<Event> {
    [Tick(slack), RefreshBegin(RENEW, 0), Revoke(RENEW), Save(SIGN_OUT)]
  }

  /** `patience` later the row is purged on that older time, just before RENEW re-reads it. */
  function StalePurge(patience: nat): seq<Event> {
    [Tick(patience), PurgeBegin(CRON), PurgeSelect(CRON), PurgeDelete(CRON), Reread(RENEW)]
  }

  /** The row is purged just before the step that looks for it. */
  lemma PurgedJustBefore(s: State, last: Event, at: int, patience: nat)
    requires CRON !in s.procs && s.rows.Keys == {0} && Purgeable(s.rows[0], s.clock - s.retention)
    requires (last == Reread(RENEW) && RENEW in s.procs && s.procs[RENEW] == Won(0, at))
          || (last == Confirm(SIGN_IN) && SIGN_IN in s.procs && s.procs[SIGN_IN] == Created(0, at))
    requires s.clock <= at + patience
    ensures Missing(s, s, [PurgeBegin(CRON)] + ([PurgeSelect(CRON)] + ([PurgeDelete(CRON)] + [last])), patience)
  {
    var begin, select, delete := PurgeBegin(CRON), PurgeSelect(CRON), PurgeDelete(CRON);
    var s2 := Next(s, begin);
    assert 0 in PurgeableTokens(s2.rows, s2.procs[CRON].cutoff);
    var s3 := Next(s2, select);
    var s4 := Next(s3, delete);
    MissingNow(s4, s, last, patience);
    MissingEarlier(s3, s, delete, [last], patience);
    MissingEarlier(s2, s, select, [delete] + [last], patience);
    MissingEarlier(s, s, begin, [select] + ([delete] + [last]), patience);
  }

  lemma StaleTimePurged(s: State, slack: nat, patience: nat)
    requires s.retention < patience + slack
    requires s.clock == slack && s.rows.Keys == {0} && s.rows[0].revoked == Some(0)
    requires CRON !in s.procs && RENEW in s.procs && s.procs[RENEW] == Won(0, slack)
    ensures Missing(s, s, StalePurge(patience), patience)
  {
    var tick, begin, select, delete, reread :=
      Tick(patience), PurgeBegin(CRON), PurgeSelect(CRON), PurgeDelete(CRON), Reread(RENEW);
    PurgedJustBefore(Next(s, tick), reread, slack, patience);
    MissingEarlier(s, s, tick, [begin] + ([select] + ([delete] + [reread])), patience);
    assert StalePurge(patience) == [tick] + ([begin] + ([select] + ([delete] + [reread])));
  }

  lemma StaleTimeSaved(s: State, slack: nat, patience: nat)
    requires s.retention < patience + slack && slack <= patience
    requires s.clock == slack && s.rows.Keys == {0}
    requires CRON !in s.procs && RENEW in s.procs && s.procs[RENEW] == Won(0, slack)
    requires SIGN_OUT in s.procs && s.procs[SIGN_OUT] == Saving(0, 0, true)
    ensures Missing(s, s, [Save(SIGN_OUT)] + StalePurge(patience), patience)
  {
    StaleTimePurged(Next(s, Save(SIGN_OUT)), slack, patience);
    MissingEarlier(s, s, Save(SIGN_OUT), StalePurge(patience), patience);
  }

  lemma StaleTimeWritten(s: State, slack: nat, patience: nat)
    requires s.retention < patience + slack && slack <= patience && slack < s.ttl
    requires s.clock == 0 && s.rows == map[0 := Row(0, 0, s.ttl, None)]
    requires CRON !in s.procs && RENEW !in s.procs && SIGN_OUT in s.procs && s.procs[SIGN_OUT] == Saving(0, 0, true)
    ensures Missing(s, s, StaleWrite(slack) + StalePurge(patience), patience)
  {
    var tick, begin, revoke := Tick(slack), RefreshBegin(RENEW, 0), Revoke(RENEW);
    var s1 := Next(s, tick);
    var s2 := Next(s1, begin);
    var rest := [Save(SIGN_OUT)] + StalePurge(patience);
    StaleTimeSaved(Next(s2, revoke), slack, patience);
    MissingEarlier(s2, s2, revoke, rest, patience);
    MissingEarlier(s1, s1, begin, [revoke] + rest, patience);
    MissingEarlier(s, s, tick, [begin] + ([revoke] + rest), patience);
    assert StaleWrite(slack) + StalePurge(patience) == [tick] + ([begin] + ([revoke] + rest));
  }

  lemma StaleTimeRead(s: State, slack: nat, patience: nat)
    requires s.retention < patience + slack && slack <= patience && slack < s.ttl
    requires s.clock == 0 && s.rows == map[0 := Row(0, 0, s.ttl, None)]
    requires CRON !in s.procs && RENEW !in s.procs && SIGN_OUT !in s.procs
    ensures Missing(s, s, StaleRead() + (StaleWrite(slack) + StalePurge(patience)), patience)
  {
    var read, revoke := LogoutRead(SIGN_OUT, 0, 0), LogoutRevoke(SIGN_OUT);
    var s1 := Next(s, read);
    var s2 := Next(s1, revoke);
    var rest := StaleWrite(slack) + StalePurge(patience);
    StaleTimeWritten(s2, slack, patience);
    MissingEarlier(s1, s1, revoke, rest, patience);
    MissingEarlier(s, s, read, [revoke] + rest, patience);
    assert StaleRead() + rest == [read] + ([revoke] + rest);
  }

  /** With a lifetime of nothing the new row itself is purged before its request re-reads it. */
  lemma ExpiredRun(s: State, patience: nat)
    requires s.retention < patience && s.ttl == 0
    requires s.clock == 0 && s.rows == map[0 := Row(0, 0, 0, None)]
    requires CRON !in s.procs && SIGN_IN in s.procs && s.procs[SIGN_IN] == Created(0, 0)
    ensures Missing(s, s, [Tick(patience), PurgeBegin(CRON), PurgeSelect(CRON), PurgeDelete(CRON), Confirm(SIGN_IN)],
                    patience)
  {
    var tick, begin, select, delete, confirm :=
      Tick(patience), PurgeBegin(CRON), PurgeSelect(CRON), PurgeDelete(CRON), Confirm(SIGN_IN);
    PurgedJustBefore(Next(s, tick), confirm, 0, patience);
    MissingEarlier(s, s, tick, [begin] + ([select] + ([delete] + [confirm])), patience);
    assert [tick, begin, select, delete, confirm] == [tick] + ([begin] + ([select] + ([delete] + [confirm])));
  }

  /** For every retention below the bound, a timely run in which a step misses its row. */
  lemma StaleRun(retention: int, ttl: int, patience: nat) returns (es: seq<Event>)
    requires 0 <= ttl && retention < patience + Slack(patience, ttl)
    ensures Missing(Init(retention, ttl), Init(retention, ttl), es, patience)
  {
    var begin, stamp, insert := LoginBegin(SIGN_IN, 0, true), Stamp(SIGN_IN), Insert(SIGN_IN, 0);
    var s := Init(retention, ttl);
    var s1 := Next(s, begin);
    var s2 := Next(s1, stamp);
    var s3 := Next(s2, insert);
    var rest: seq<Event>;
    if ttl == 0 {
      rest := [Tick(patience), PurgeBegin(CRON), PurgeSelect(CRON), PurgeDelete(CRON), Confirm(SIGN_IN)];
      ExpiredRun(s3, patience);
    } else {
      rest := StaleRead() + (StaleWrite(Slack(patience, ttl)) + StalePurge(patience));
      StaleTimeRead(s3, Slack(patience, ttl), patience);
    }
    MissingEarlier(s2, s2, insert, rest, patience);
    MissingEarlier(s1, s1, stamp, [insert] + rest, patience);
    MissingEarlier(s, s, begin, [stamp] + ([insert] + rest), patience);
    es := [begin] + ([stamp] + ([insert] + rest));
  }

  ghost predicate AlwaysInvisible(retention: int, ttl: int, patience: nat) {
    var s := Init(retention, ttl);
    forall es :: Valid(s, es) && AllTimely(s, es, patience) ==> Invisible(s, s, es)
  }

  /** Purging is invisible to every login and refresh of every run in which no request is later than
      `patience`, if and only if the retention is at least `patience` and the slack: twice `patience`,
      or, for a lateness of a lifetime or more, `patience` and a lifetime less one. */
  lemma RetentionNeeded(retention: int, ttl: int, patience: nat)
    requires 0 <= ttl
    ensures AlwaysInvisible(retention, ttl, patience) <==> patience + Slack(patience, ttl) <= retention
    ensures patience < ttl ==> (AlwaysInvisible(retention, ttl, patience) <==> 2 * patience <= retention)
  {
    var s := Init(retention, ttl);
    if patience + Slack(patience, ttl) <= retention {
      forall es | Valid(s, es) && AllTimely(s, es, patience) ensures Invisible(s, s, es) {
        InitShadows(retention, ttl);
        TimelyRun(s, s, es, patience);
        PurgeInvisibleExactly(retention, ttl, es);
      }
    } else {
      var es := StaleRun(retention, ttl, patience);
      PurgeInvisibleExactly(retention, ttl, es);
    }
  }
}
