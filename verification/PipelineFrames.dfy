/** What a step may change besides the trace it works on. */
module PipelineFrames {
  import opened Wrappers
  import opened Trace
  import opened Pipeline

  /** The mutex goes only to a candidate of the window, and only when it was free or `mine` held it. */
  ghost predicate MutexPassed(s: State, s': State, mine: set<TraceId>) {
    && (s'.attempt.Some? ==> s'.attempt == s.attempt || s'.attempt.value in s.windowIds + mine)
    && (s.attempt.Some? && s.attempt.value !in mine ==> s'.attempt == s.attempt)
  }

  /** A trace outside the window, the current attempt's included, keeps its state, rows, comment and continuation. */
  ghost predicate Spared(s: State, s': State, mine: set<TraceId>) {
    forall x | x !in mine && x !in s.windowIds ::
      && (x in s'.conts <==> x in s.conts) && (x in s.conts ==> s'.conts[x] == s.conts[x])
      && (x in s'.traceState <==> x in s.traceState) && (x in s.traceState ==> s'.traceState[x] == s.traceState[x])
      && (x in s'.chains <==> x in s.chains) && (x in s.chains ==> s'.chains[x] == s.chains[x])
      && (x in s'.comments <==> x in s.comments) && (x in s.comments ==> s'.comments[x] == s.comments[x])
  }

  /** An audited comment keeps its session, its message, its window version and its time of arrival. */
  ghost predicate AnchorsKept(s: State, s': State) {
    forall x | x in s.chains && x in s.comments ::
      x in s'.comments && s'.comments[x] == s.comments[x].(deadline := s'.comments[x].deadline)
  }

  /** No abort was asked for, and the comment of `t` is of this session and window and within its deadline. */
  ghost predicate Fresh(s: State, t: TraceId) {
    && !s.abortRequested && t in s.comments && s.session == Some(s.comments[t].sessionId)
    && s.comments[t].windowVersion == s.version && s.clock <= s.comments[t].deadline
  }

  /** Why the comment of `t` may not go on, if it may not. */
  ghost function CommentVerdict(s: State, t: TraceId): Option<Reason>
    requires t in s.comments
  {
    if s.abortRequested then Some(UserStopped)
    else if s.session != Some(s.comments[t].sessionId) then Some(StaleSession)
    else if s.comments[t].windowVersion != s.version then Some(StaleWindow)
    else if s.clock > s.comments[t].deadline then Some(DeadlineExceeded)
    else None
  }

  /** Why the attempt of `t` may not go on, if it may not. */
  ghost function AttemptVerdict(s: State, t: TraceId): Option<Reason>
    requires t in s.attempts
  {
    if s.attempts[t].aborted || s.abortRequested then Some(s.attempts[t].cancelReason)
    else if s.session != Some(s.attempts[t].sessionId) then Some(StaleSession)
    else if s.attempts[t].windowVersion != s.version then Some(StaleWindow)
    else if s.clock > s.attempts[t].deadline then Some(DeadlineExceeded)
    else None
  }

  /** A comment that could not go on to begin with was closed, and for the reason that its fields give. */
  ghost predicate ClosedIfStale(s: State, s': State, t: TraceId) {
    && t in s.comments
    && var c := s.comments[t];
       && (s.abortRequested ==> ClosedWith(s, s', t, UserStopped))
       && (!s.abortRequested && s.session != Some(c.sessionId) ==> ClosedWith(s, s', t, StaleSession))
       && (!s.abortRequested && s.session == Some(c.sessionId) ==>
             && (c.windowVersion != s.version ==> ClosedWith(s, s', t, StaleWindow))
             && (c.windowVersion == s.version && s.clock > c.deadline ==> ClosedWith(s, s', t, DeadlineExceeded)))
  }

  /** As `ClosedIfStale`, for an attempt, which remembers why it was aborted. */
  ghost predicate AttemptClosedIfStale(s: State, s': State, t: TraceId) {
    && t in s.attempts
    && var a := s.attempts[t];
       && (a.aborted || s.abortRequested ==> ClosedWith(s, s', t, a.cancelReason))
       && (!a.aborted && !s.abortRequested && s.session != Some(a.sessionId) ==> ClosedWith(s, s', t, StaleSession))
       && (!a.aborted && !s.abortRequested && s.session == Some(a.sessionId) ==>
             && (a.windowVersion != s.version ==> ClosedWith(s, s', t, StaleWindow))
             && (a.windowVersion == s.version && s.clock > a.deadline ==> ClosedWith(s, s', t, DeadlineExceeded)))
  }

  lemma ClosedOnVerdict(a: State, b: State, c: State, t: TraceId)
    requires b == a.(clock := b.clock) && a.clock <= b.clock && t in b.comments
    requires CommentVerdict(b, t).Some? ==> ClosedWith(b, c, t, CommentVerdict(b, t).value)
    ensures ClosedIfStale(a, c, t)
  {
    hide ClosedWith;
    forall reason | ClosedWith(b, c, t, reason)
      ensures ClosedWith(a, c, t, reason)
    {
      ClosedSinceTaken(a, b, c, t, reason);
    }
  }

  lemma ClosedOnAttemptVerdict(a: State, b: State, c: State, t: TraceId)
    requires b == a.(clock := b.clock) && a.clock <= b.clock && t in b.attempts
    requires AttemptVerdict(b, t).Some? ==> ClosedWith(b, c, t, AttemptVerdict(b, t).value)
    ensures AttemptClosedIfStale(a, c, t)
  {
    hide ClosedWith;
    forall reason | ClosedWith(b, c, t, reason)
      ensures ClosedWith(a, c, t, reason)
    {
      ClosedSinceTaken(a, b, c, t, reason);
    }
  }

  /** What was stale before the continuation was taken was stale when it was. */
  lemma StaleSinceTaken(a: State, b: State, c: State, t: TraceId)
    requires b == a.(conts := b.conts)
    ensures ClosedIfStale(b, c, t) ==> ClosedIfStale(a, c, t)
    ensures AttemptClosedIfStale(b, c, t) ==> AttemptClosedIfStale(a, c, t)
  {
    hide ClosedWith;
    forall reason | ClosedWith(b, c, t, reason)
      ensures ClosedWith(a, c, t, reason)
    {
      ClosedSinceTaken(a, b, c, t, reason);
    }
  }

  /** None of the rows that `t` has gained says that it was stale. */
  ghost predicate NotStale(s: State, s': State, t: TraceId) {
    && t in s.chains && t in s'.chains && s.chains[t] <= s'.chains[t]
    && forall i | |s.chains[t]| <= i < |s'.chains[t]| :: !OfStaleness(s'.chains[t][i].reason)
  }

  /** If the next row of `t` discards it, then because the window dropped it. */
  ghost predicate LeftBy(s: State, s': State, t: TraceId) {
    t in s.chains && t in s'.chains && |s.chains[t]| < |s'.chains[t]| ==>
      var next := s'.chains[t][|s.chains[t]|];
      next.to == Discarded ==> next.reason == WindowEvicted
  }

  /**
   * A candidate that stays in the window gains no row, one that leaves it is
   * dropped or becomes the attempt, and one that is fresh in the end was not
   * closed as stale.
   */
  ghost predicate Candidates(s: State, s': State, mine: set<TraceId>) {
    forall x | x in s.windowIds && x !in mine && x in s.chains ::
      && (x in s'.windowIds ==> x in s'.chains && s'.chains[x] == s.chains[x])
      && LeftBy(s, s', x)
      && (s'.version == s.version && Fresh(s', x) ==> NotStale(s, s', x))
  }

  /** Time passes; session, window version and abort request stay, but for a version that begins anew. */
  ghost predicate Onward(s: State, s': State) {
    && s.clock <= s'.clock && s.version <= s'.version
    && s'.session == s.session && s'.abortRequested == s.abortRequested
  }

  /** Beyond `mine`, the step concerned only traces it took from the window. */
  ghost predicate Progress(s: State, s': State, mine: set<TraceId>) {
    && FinishedKept(s, s')
    && s'.chains.Keys <= s.chains.Keys + mine
    && s'.windowIds <= s.windowIds + mine
    && MutexPassed(s, s', mine)
    && Spared(s, s', mine)
    && AnchorsKept(s, s')
    && Onward(s, s')
    && Candidates(s, s', mine)
  }

  /** No search is started. */
  ghost predicate NoNewSearch(s: State, s': State) {
    forall x | x in s'.conts && s'.conts[x] == Searching :: x in s.conts && s.conts[x] == Searching
  }

  /** As `Progress`, for a step that starts no search. */
  ghost predicate Turn(s: State, s': State, mine: set<TraceId>) {
    Progress(s, s', mine) && NoNewSearch(s, s')
  }

  lemma SparedTrans(a: State, b: State, c: State, mine: set<TraceId>)
    requires b.windowIds <= a.windowIds + mine && MutexPassed(a, b, mine)
    requires Spared(a, b, mine) && Spared(b, c, mine)
    ensures Spared(a, c, mine)
  {
  }

  lemma CandidatesTrans(a: State, b: State, c: State, mine: set<TraceId>)
    requires AppendOnly(a, b) && AppendOnly(b, c) && Onward(a, b) && Onward(b, c)
    requires b.windowIds <= a.windowIds + mine && c.windowIds <= b.windowIds + mine && Spared(b, c, mine)
    requires Candidates(a, b, mine) && Candidates(b, c, mine)
    ensures Candidates(a, c, mine)
  {
    hide Spared, AppendOnly, NotStale, LeftBy;
    forall x | x in a.windowIds && x !in mine && x in a.chains
      ensures LeftBy(a, c, x)
      ensures x in c.windowIds ==> x in c.chains && c.chains[x] == a.chains[x]
      ensures c.version == a.version && Fresh(c, x) ==> NotStale(a, c, x)
    {
      if x in b.windowIds {
        assert x in b.chains && b.chains[x] == a.chains[x];
        NotStaleSince(a, b, c, x);
        LeftSince(a, b, c, x);
      } else {
        SparedComment(b, c, mine, x);
        LeftAfter(a, b, c, x);
        assert AppendOnly(a, b);
        NotStaleAfter(a, b, c, x);
      }
    }
  }

  lemma SparedComment(a: State, b: State, mine: set<TraceId>, x: TraceId)
    requires Spared(a, b, mine) && x !in mine && x !in a.windowIds
    ensures x in b.comments <==> x in a.comments
    ensures x in a.comments ==> b.comments[x] == a.comments[x]
    ensures x in b.chains <==> x in a.chains
    ensures x in a.chains ==> b.chains[x] == a.chains[x]
  {
  }

  lemma LeftSince(a: State, b: State, c: State, t: TraceId)
    requires t in a.chains && t in b.chains && b.chains[t] == a.chains[t]
    ensures LeftBy(b, c, t) ==> LeftBy(a, c, t)
  {
  }

  lemma LeftAfter(a: State, b: State, c: State, t: TraceId)
    requires t in c.chains ==> t in b.chains && c.chains[t] == b.chains[t]
    ensures LeftBy(a, b, t) ==> LeftBy(a, c, t)
  {
  }

  lemma NotStaleSince(a: State, b: State, c: State, t: TraceId)
    requires t in a.chains && t in b.chains && b.chains[t] == a.chains[t]
    ensures NotStale(b, c, t) ==> NotStale(a, c, t)
  {
  }

  lemma NotStaleAfter(a: State, b: State, c: State, t: TraceId)
    requires t in b.chains ==> t in c.chains && c.chains[t] == b.chains[t]
    ensures NotStale(a, b, t) ==> NotStale(a, c, t)
  {
  }

  lemma AnchorsTrans(a: State, b: State, c: State)
    requires AppendOnly(a, b) && AnchorsKept(a, b) && AnchorsKept(b, c)
    ensures AnchorsKept(a, c)
  {
  }

  lemma MutexTrans(a: State, b: State, c: State, mine: set<TraceId>)
    requires b.windowIds <= a.windowIds + mine && MutexPassed(a, b, mine) && MutexPassed(b, c, mine)
    ensures MutexPassed(a, c, mine)
  {
  }

  lemma ProgressTrans(a: State, b: State, c: State, mine: set<TraceId>)
    requires Progress(a, b, mine) && Progress(b, c, mine)
    ensures Progress(a, c, mine)
  {
    hide AnchorsKept, Spared, MutexPassed, FinishedKept, Candidates, AppendOnly;
    FinishedTrans(a, b, c);
    MutexTrans(a, b, c, mine);
    SparedTrans(a, b, c, mine);
    FinishedAppends(a, b);
    FinishedAppends(b, c);
    AnchorsTrans(a, b, c);
    CandidatesTrans(a, b, c, mine);
  }

  lemma TurnTrans(a: State, b: State, c: State, mine: set<TraceId>)
    requires Turn(a, b, mine) && Turn(b, c, mine)
    ensures Turn(a, c, mine)
  {
    hide Progress;
    ProgressTrans(a, b, c, mine);
  }

  lemma ProgressAppends(a: State, b: State, mine: set<TraceId>)
    requires Progress(a, b, mine)
    ensures AppendOnly(a, b)
  {
  }

  lemma ProgressSame(a: State, mine: set<TraceId>)
    ensures Progress(a, a, mine)
  {
  }

  /** The step audits no trace beyond its own. */
  lemma ProgressKeys(a: State, b: State, t: TraceId)
    requires Progress(a, b, {t})
    ensures t in b.chains ==> b.chains.Keys == a.chains.Keys + {t}
  {
  }

  lemma TurnProgress(a: State, b: State, mine: set<TraceId>)
    requires Turn(a, b, mine)
    ensures Progress(a, b, mine)
  {
  }

  lemma ProgressFinished(a: State, b: State, mine: set<TraceId>)
    requires Progress(a, b, mine)
    ensures FinishedKept(a, b)
  {
  }

  lemma TurnFinished(a: State, b: State, mine: set<TraceId>)
    requires Turn(a, b, mine)
    ensures FinishedKept(a, b)
  {
  }

  /** A step may be said to concern more than it did. */
  lemma TurnWiden(a: State, b: State, mine: set<TraceId>, t: TraceId)
    requires Turn(a, b, mine)
    ensures Turn(a, b, mine + {t})
  {
  }

  lemma TurnOwn(a: State, b: State, t: TraceId)
    requires Turn(a, b, {})
    ensures Turn(a, b, {t})
  {
    TurnWiden(a, b, {}, t);
    assert {} + {t} == {t};
  }

  lemma NotSearching(a: State, b: State, t: TraceId)
    requires Turn(a, b, {t}) && t !in a.conts
    ensures t in b.conts ==> b.conts[t] != Searching
  {
  }

  /** A candidate that left the window needs no mention. */
  lemma TurnAbsorb(a: State, b: State, t: TraceId)
    requires Turn(a, b, {t}) && t in a.windowIds && t in a.chains && a.attempt == None && t !in b.windowIds
    requires b.version == a.version && Fresh(b, t) ==> NotStale(a, b, t)
    requires LeftBy(a, b, t)
    ensures Turn(a, b, {})
  {
    hide NotStale, LeftBy;
  }

  // ------------------------------------------------------------ a step's own trace

  /** `t` stays out of the window, with the comment it had. */
  ghost predicate Aside(s: State, s': State, t: TraceId) {
    t !in s'.windowIds && t in s.comments && t in s'.comments && s'.comments[t] == s.comments[t]
  }

  /** As `Aside`, and `t` was not closed as stale when it is fresh in the end. */
  ghost predicate Own(s: State, s': State, t: TraceId) {
    Aside(s, s', t) && (s'.version == s.version && Fresh(s', t) ==> NotStale(s, s', t))
  }

  lemma OwnAside(a: State, b: State, t: TraceId)
    requires Own(a, b, t)
    ensures Aside(a, b, t)
  {
  }

  lemma AsideTrans(a: State, b: State, c: State, t: TraceId)
    requires Aside(a, b, t) && Aside(b, c, t)
    ensures Aside(a, c, t)
  {
  }

  lemma OwnTrans(a: State, b: State, c: State, t: TraceId)
    requires Onward(a, b) && Onward(b, c) && Own(a, b, t) && Own(b, c, t)
    ensures Own(a, c, t)
  {
    if c.version == a.version && Fresh(c, t) {
      assert NotStale(a, b, t) && NotStale(b, c, t);
    }
  }

  lemma ProgressOwnTrans(a: State, b: State, c: State, t: TraceId)
    requires Progress(a, b, {t}) && Progress(b, c, {t}) && Own(a, b, t) && Own(b, c, t)
    ensures Progress(a, c, {t}) && Own(a, c, t)
  {
    hide Own;
    ProgressTrans(a, b, c, {t});
    OwnTrans(a, b, c, t);
  }

  lemma TurnOwnTrans(a: State, b: State, c: State, t: TraceId)
    requires Turn(a, b, {t}) && Turn(b, c, {t}) && Own(a, b, t) && Own(b, c, t)
    ensures Turn(a, c, {t}) && Own(a, c, t)
  {
    hide Own;
    TurnTrans(a, b, c, {t});
    OwnTrans(a, b, c, t);
  }

  /** What gains no row is not closed. */
  lemma OwnSame(a: State, b: State, t: TraceId)
    requires Aside(a, b, t) && t in a.chains && t in b.chains && b.chains[t] == a.chains[t]
    ensures Own(a, b, t)
  {
  }

  /** One more row, which does not say that the trace was stale. */
  lemma OwnRow(a: State, b: State, t: TraceId, row: Entry)
    requires Aside(a, b, t) && t in a.chains && t in b.chains && b.chains[t] == a.chains[t] + [row]
    requires !OfStaleness(row.reason)
    ensures Own(a, b, t)
  {
  }

  /** A trace found stale stays stale, a finished one gains no row, and any other is closed for another reason. */
  ghost predicate Closable(s: State, t: TraceId, reason: Reason) {
    !Fresh(s, t) || (t in s.traceState && Terminal(s.traceState[t])) || !OfStaleness(reason)
  }

  lemma OwnClosed(a: State, b: State, t: TraceId, reason: Reason)
    requires Aside(a, b, t) && Onward(a, b) && ClosedWith(a, b, t, reason) && Closable(a, t, reason)
    ensures Own(a, b, t)
  {
    if !OfStaleness(reason) {
      ClosedNotStale(a, a, b, t, reason);
    }
  }

  /** The trace is closed after a check that said so. */
  lemma TurnClosed(a: State, b: State, c: State, t: TraceId, reason: Reason)
    requires Turn(a, b, {t}) && Own(a, b, t) && Turn(b, c, {t}) && Aside(b, c, t)
    requires ClosedWith(b, c, t, reason) && Closable(b, t, reason)
    ensures Turn(a, c, {t}) && Own(a, c, t)
  {
    hide Own, ClosedWith, Closable;
    TurnTrans(a, b, c, {t});
    OwnClosed(b, c, t, reason);
    OwnTrans(a, b, c, t);
  }

  /** What a step writes for its own trace it adds to the rows there were. */
  lemma TurnExtends(a: State, b: State, mine: set<TraceId>, t: TraceId)
    requires Turn(a, b, mine) && t in a.chains
    ensures t in b.chains && a.chains[t] <= b.chains[t]
  {
  }

  lemma OwnFresh(a: State, b: State, t: TraceId)
    requires Own(a, b, t) && b.version == a.version
    ensures Fresh(b, t) ==> NotStale(a, b, t)
  {
  }

  lemma NotStaleRows(a: State, b: State, t: TraceId)
    requires NotStale(a, b, t)
    ensures t in a.chains && t in b.chains && a.chains[t] <= b.chains[t]
    ensures forall i | |a.chains[t]| <= i < |b.chains[t]| ::
      b.chains[t][i].reason !in {UserStopped, StaleSession, StaleWindow, DeadlineExceeded}
  {
  }

  /** What is stale stays stale. */
  lemma StaleStays(a: State, b: State, t: TraceId)
    requires Turn(a, b, {t}) && Aside(a, b, t) && b.version == a.version
    ensures !Fresh(a, t) ==> !Fresh(b, t)
  {
  }

  /** Taking the continuation leaves its trace aside as well. */
  lemma AsideTaken(a: State, b: State, c: State, t: TraceId)
    requires Turn(a, b, {t}) && Turn(b, c, {t}) && Own(a, b, t) && Aside(b, c, t)
    ensures Aside(a, c, t) && (Own(b, c, t) ==> Own(a, c, t))
  {
    if Own(b, c, t) {
      TurnOwnTrans(a, b, c, t);
    }
  }

  lemma OutsideRows(a: State, b: State, t: TraceId)
    requires Turn(a, b, {}) && t !in a.windowIds && t in a.chains
    ensures t in b.chains && b.chains[t] == a.chains[t]
  {
  }

  /** A step without a trace of its own leaves what is outside the window aside. */
  lemma AsideInTurn(a: State, b: State, t: TraceId)
    requires Turn(a, b, {}) && t !in a.windowIds && t in a.comments
    ensures Aside(a, b, t)
  {
  }

  lemma TurnAnchors(a: State, b: State, mine: set<TraceId>, t: TraceId)
    requires Turn(a, b, mine) && t in a.chains && t in a.comments
    ensures t in b.comments && b.comments[t] == a.comments[t].(deadline := b.comments[t].deadline)
    ensures t in b.chains && a.chains[t] <= b.chains[t]
  {
  }

  /** A trace that joined the window stands or was dropped. */
  lemma JoinedNotStale(a: State, b: State, c: State, t: TraceId, kept: set<TraceId>)
    requires b.traceState == a.traceState && b.chains == a.chains && t in b.windowIds && t in a.chains
    requires t in kept ==> t in c.chains && c.chains[t] == a.chains[t]
    requires AllClosed(b, c, b.windowIds - kept, WindowEvicted)
    ensures NotStale(a, c, t) && LeftBy(a, c, t)
  {
    hide ClosedWith, NotStale, LeftBy;
    if t in kept {
      NotStaleSame(a, c, t);
    } else {
      ClosedNotStale(a, b, c, t, WindowEvicted);
    }
  }

  /** A trace that joined the window is closed as stale only when it is stale in the end. */
  lemma JoinedFresh(a: State, b: State, c: State, t: TraceId)
    requires NotStale(a, b, t) && LeftBy(a, b, t) && Turn(b, c, {}) && b.version == c.version
    requires t in b.windowIds ==> t in a.chains && t in b.chains && b.chains[t] == a.chains[t]
    ensures (Fresh(c, t) ==> NotStale(a, c, t)) && LeftBy(a, c, t)
  {
    if t in b.windowIds {
      LeftSince(a, b, c, t);
    } else {
      LeftAfter(a, b, c, t);
    }
  }

  /** Only the rows and the state of `t` have changed. */
  lemma TurnOfTrace(a: State, b: State, t: TraceId)
    requires OnlyTrace(a, b, t) && t in a.chains && FinishedKept(a, b)
    ensures Turn(a, b, {t})
  {
  }

  /** Only the continuation of `t` has changed, and it does not wait for a search. */
  lemma TurnOfPark(a: State, b: State, t: TraceId, stage: Stage)
    requires b == a.(conts := a.conts[t := stage]) && stage != Searching
    ensures Turn(a, b, {t})
  {
  }

  lemma TurnOfTake(a: State, b: State, t: TraceId)
    requires b == a.(conts := a.conts - {t})
    ensures Turn(a, b, {t})
  {
  }

  lemma ProgressOfPark(a: State, b: State, t: TraceId, stage: Stage)
    requires b == a.(conts := a.conts[t := stage])
    ensures Progress(a, b, {t})
  {
  }

  /** Neither rows nor continuations have changed. */
  lemma TurnOfPlaces(a: State, b: State, mine: set<TraceId>)
    requires b.traceState == a.traceState && b.chains == a.chains && b.conts == a.conts && b.comments == a.comments
    requires b.windowIds <= a.windowIds + mine && MutexPassed(a, b, mine) && Onward(a, b)
    ensures Turn(a, b, mine)
  {
  }

  lemma TurnSame(a: State, b: State, mine: set<TraceId>)
    requires b.traceState == a.traceState && b.chains == a.chains && b.conts == a.conts && b.comments == a.comments
    requires b.windowIds == a.windowIds && b.attempt == a.attempt && Onward(a, b)
    ensures Turn(a, b, mine)
  {
  }

  /** Candidates have left the window and their traces were closed. */
  lemma TurnOfEviction(a: State, b: State, c: State)
    requires b == a.(windowIds := b.windowIds) && b.windowIds <= a.windowIds
    requires OnlyTraces(b, c, a.windowIds - b.windowIds) && FinishedKept(b, c)
    requires AllClosed(b, c, a.windowIds - b.windowIds, WindowEvicted)
    ensures Turn(a, c, {})
  {
    hide ClosedWith, NotStale, LeftBy;
    forall x | x in a.windowIds && x !in b.windowIds
      ensures NotStale(a, c, x) && LeftBy(a, c, x)
    {
      ClosedNotStale(a, b, c, x, WindowEvicted);
    }
    forall x | x in a.windowIds && x in a.chains
      ensures NotStale(a, c, x) && LeftBy(a, c, x)
    {
      if x in b.windowIds {
        assert c.chains[x] == a.chains[x];
        NotStaleSame(a, c, x);
      }
    }
  }

  lemma NotStaleSame(a: State, b: State, t: TraceId)
    requires t in a.chains && t in b.chains && b.chains[t] == a.chains[t]
    ensures NotStale(a, b, t) && LeftBy(a, b, t)
  {
  }

  /** Closing for a reason other than staleness writes no row that says otherwise. */
  lemma ClosedNotStale(a: State, b: State, c: State, t: TraceId, reason: Reason)
    requires b.chains == a.chains && ClosedWith(b, c, t, reason) && !OfStaleness(reason)
    ensures NotStale(a, c, t) && (reason == WindowEvicted ==> LeftBy(a, c, t))
  {
  }

  /** A candidate of the window becomes the attempt, with a deadline of its own. */
  lemma TurnOfElection(a: State, b: State, t: TraceId)
    requires b == a.(windowIds := a.windowIds - {t}, windowed := b.windowed, attempt := Some(t),
                     comments := b.comments, attempts := b.attempts, clock := b.clock)
    requires t in a.windowIds && t in a.comments && t in b.comments && a.clock <= b.clock
    requires b.comments == a.comments[t := a.comments[t].(deadline := b.comments[t].deadline)]
    requires a.attempt == None
    ensures Turn(a, b, {t})
  {
  }

  /** Only time has passed. */
  lemma TurnOfTick(a: State, b: State, mine: set<TraceId>)
    requires b == a.(clock := b.clock) && a.clock <= b.clock
    ensures Turn(a, b, mine)
  {
  }

  /** A trace joins the window; what the window drops for it is closed. */
  lemma TurnOfJoining(a: State, b: State, c: State, t: TraceId)
    requires b == a.(windowed := a.windowed + {t}, windowIds := a.windowIds + {t}) && Turn(b, c, {})
    ensures Turn(a, c, {t})
  {
    TurnOfPlaces(a, b, {t});
    TurnOwn(b, c, t);
    TurnTrans(a, b, c, {t});
  }

  /** A candidate the window kept has its rows and its state. */
  lemma StillListed(a: State, b: State, c: State, d: State, t: TraceId)
    requires b == a.(windowed := b.windowed, windowIds := b.windowIds) && c == b.(windowIds := c.windowIds)
    requires OnlyTraces(c, d, b.windowIds - c.windowIds) && t in a.chains && t in a.traceState
    ensures t in d.chains && t in d.traceState
    ensures t in c.windowIds ==> d.chains[t] == a.chains[t] && d.traceState[t] == a.traceState[t]
  {
  }

  /** A new trace is audited. */
  lemma TurnOfArrival(a: State, b: State, t: TraceId, c: Comment)
    requires t !in a.chains
    requires b == Written(a.(comments := a.comments[t := c], next := t + 1), t, None, Received, EventReceived)
    requires t !in a.traceState
    ensures Turn(a, b, {t})
  {
  }

  /** The mutex is released, and whoever may take it next comes out of the window. */
  lemma TurnOfRelease(a: State, b: State, c: State, t: TraceId)
    requires b == a.(timer := None, attempt := None) && (a.attempt == None || a.attempt == Some(t))
    requires t !in a.windowIds && t in a.comments && (c == b || Turn(b, c, {}))
    ensures Turn(a, c, {t}) && c.attempt != Some(t) && Aside(a, c, t)
  {
    TurnOfPlaces(a, b, {t});
    if c != b {
      TurnOwn(b, c, t);
      TurnTrans(a, b, c, {t});
    }
  }

  /** A candidate leaves the window as the attempt: it needs no mention. */
  lemma TurnOfStart(a: State, b: State, c: State, t: TraceId)
    requires Turn(a, b, {t}) && t in a.windowIds && t in a.chains && a.attempt == None
    requires t in b.chains && b.chains[t] == a.chains[t] && b.version == a.version
    requires Turn(b, c, {t}) && Own(b, c, t) && LeftBy(b, c, t)
    ensures Turn(a, c, {})
  {
    LeftSince(a, b, c, t);
    assert Turn(a, c, {t}) by {
      TurnTrans(a, b, c, {t});
    }
    assert a.version == c.version && Fresh(c, t) ==> NotStale(a, c, t) by {
      NotStaleSince(a, b, c, t);
    }
    TurnAbsorb(a, c, t);
  }

  /** While the attempt's trace is at work the backlog stands as it did. */
  lemma QueueSpared(a: State, b: State, t: TraceId, at: int, timeout: int)
    requires Inv(a, {}) && a.attempt == Some(t) && Turn(a, b, {t})
    ensures Overdue(a.queue, b.comments, at, timeout) == Overdue(a.queue, a.comments, at, timeout)
    ensures forall x | x in a.queue ::
      && x in a.traceState && x in b.traceState && b.traceState[x] == a.traceState[x]
      && x in a.chains && x in b.chains && b.chains[x] == a.chains[x]
  {
    hide BookOk, Candidates, AnchorsKept, FinishedKept, MutexPassed, NoNewSearch;
    forall x | x in a.queue
      ensures x in a.traceState && x in a.chains && x in a.comments && x != t && x !in a.windowIds
    {
      assert Placed(a, x);
    }
  }

  /** Closing queued traces after the attempt's is closing them since before it. */
  lemma QueueClosedSince(a: State, b: State, c: State, t: TraceId, ids: set<TraceId>, reason: Reason)
    requires Inv(a, {}) && a.attempt == Some(t) && Turn(a, b, {t})
    requires AllClosed(b, c, ids, reason) && forall x | x in ids :: x in a.queue
    ensures AllClosed(a, c, ids, reason)
  {
    QueueSpared(a, b, t, 0, 0);
    hide Inv, Turn, ClosedWith;
    forall x | x in ids
      ensures ClosedWith(a, c, x, reason)
    {
      ClosedSince(a, b, c, x, reason);
    }
  }

  /** A hidden trace that holds the mutex holds it through the steps of every other trace. */
  lemma WedgeStays(a: State, b: State, u: TraceId)
    requires Progress(a, b, {u})
    requires a.attempt.Some? ==> a.attempt.value in a.chains
    ensures a.attempt.Some? && a.attempt != Some(u) ==> b.attempt == a.attempt
    ensures a.attempt.Some? && a.attempt.value in a.traceState && a.traceState[a.attempt.value] == Hidden ==>
      && a.attempt.value in b.traceState && b.traceState[a.attempt.value] == Hidden
      && a.attempt.value in b.chains && b.chains[a.attempt.value] == a.chains[a.attempt.value]
  {
  }
}
