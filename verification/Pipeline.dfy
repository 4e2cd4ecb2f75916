/**
 * What the suggestion pipeline keeps between any two of its steps, stated over
 * a snapshot of its fields, and the effect on it of each single action.
 */
module Pipeline {
  import opened Wrappers
  import opened Trace

  const QUEUE_MAX: nat := 50

  datatype Comment = Comment(sessionId: nat, messageId: nat, windowVersion: nat, received: int, deadline: int)

  datatype Attempt = Attempt(sessionId: nat, windowVersion: nat, deadline: int, cancelReason: Reason, aborted: bool)

  /** Where the continuation of a trace is suspended. */
  datatype Stage =
    | Searching
    | SearchThrown
    | AwaitConfig
    | AwaitKey
    | AwaitProvider
    | AwaitShow
    | AwaitDuration
    | AttemptThrown

  predicate OfSearch(stage: Stage) {
    stage.Searching? || stage.SearchThrown?
  }

  /** The states that belong to the single attempt. */
  predicate InAttempt(state: TraceState) {
    state in {DirectReady, PromptRendered, LlmPending, Generated, DisplayReady, Displayed}
  }

  predicate StageState(stage: Stage, state: TraceState) {
    match stage
    case Searching => state == Retrieving
    case SearchThrown => state == Retrieving
    case AwaitConfig => state == PromptRendered
    case AwaitKey => state == PromptRendered
    case AwaitProvider => state == LlmPending
    case AwaitShow => state == DisplayReady
    case AwaitDuration => state == Displayed
    case AttemptThrown => state == Retrieving || InAttempt(state)
  }

  /**
   * Comments and attempts are shared objects in the program, so both are kept in
   * stores keyed by trace id and every other field refers to them by that id.
   */
  datatype State = State(
    session: Option<nat>,
    attempt: Option<TraceId>,
    abortRequested: bool,
    timer: Option<TraceId>,
    queue: seq<TraceId>,
    traceState: map<TraceId, TraceState>,
    windowed: set<TraceId>,
    windowIds: set<TraceId>,
    version: nat,
    conts: map<TraceId, Stage>,
    chains: map<TraceId, seq<Entry>>,
    comments: map<TraceId, Comment>,
    attempts: map<TraceId, Attempt>,
    next: nat,
    refused: bool,
    clock: int)

  /** The audited rows of a trace form a path that ends in its recorded state. */
  ghost predicate BookOk(s: State, t: TraceId)
    requires t in s.chains
  {
    && t < s.next
    && IsPath(s.chains[t])
    && (if t in s.traceState then Last(s.chains[t]) == s.traceState[t] else Terminal(Last(s.chains[t])))
  }

  /** A trace that no step is busy with stands in one place and in that place's state. */
  ghost predicate Placed(s: State, t: TraceId)
    requires t in s.traceState
  {
    var st := s.traceState[t];
    && (t in s.queue ==>
          st == Normalized && t !in s.conts && t !in s.windowIds && s.attempt != Some(t))
    && (t in s.windowIds ==>
          st == Retrieving && t !in s.conts && s.attempt != Some(t))
    && (t in s.conts && OfSearch(s.conts[t]) ==> st == Retrieving && s.attempt != Some(t))
    && (t in s.conts && !OfSearch(s.conts[t]) ==>
          if s.attempt == Some(t) then StageState(s.conts[t], st) else s.abortRequested && Terminal(st))
    && (s.timer == Some(t) ==> st == Displayed && t !in s.conts)
    && (s.attempt == Some(t) && t !in s.conts && s.timer != Some(t) ==> st == Hidden)
    && (!Terminal(st) ==> t in s.queue || t in s.windowIds || t in s.conts || s.attempt == Some(t))
  }

  ghost predicate Ascending(ids: seq<TraceId>) {
    forall i, j | 0 <= i < j < |ids| :: ids[i] < ids[j]
  }

  /** Everything referred to is a begun trace of this session. */
  ghost predicate Closed(s: State, hand: set<TraceId>) {
    && s.traceState.Keys <= s.chains.Keys
    && s.traceState.Keys <= s.comments.Keys
    && s.attempts.Keys <= s.comments.Keys
    && (forall t | t in s.queue :: t in s.traceState)
    && s.windowIds <= s.traceState.Keys
    && s.conts.Keys <= s.traceState.Keys
    && (forall t | t in hand :: t in s.traceState)
    && (s.attempt.Some? ==> s.attempt.value in s.traceState && s.attempt.value in s.attempts)
    && (s.timer.Some? ==> s.timer == s.attempt)
    && (forall t | t in s.conts && !OfSearch(s.conts[t]) :: t in s.attempts)
  }

  /** The window and its side index agree, and every candidate is of this version. */
  ghost predicate WindowAgrees(s: State, hand: set<TraceId>) {
    && (forall t | t in s.windowIds :: t in s.windowed)
    && (forall t | t in s.windowed :: t in s.windowIds || t in hand)
    && (forall t | t in s.windowIds :: t in s.comments && s.comments[t].windowVersion == s.version)
  }

  /** `hand` holds the traces the running step is in the middle of moving. */
  ghost predicate Inv(s: State, hand: set<TraceId>) {
    && Closed(s, hand)
    && (forall t | t in s.chains :: BookOk(s, t))
    && (forall t | t in s.traceState && t !in hand :: Placed(s, t))
    && WindowAgrees(s, hand)
    && Ascending(s.queue) && |s.queue| <= QUEUE_MAX
    && !s.refused
  }

  /** What holds whenever no step is running. */
  ghost predicate Ready(s: State) {
    && Inv(s, {})
    && (s.abortRequested ==> s.attempt == None)
  }

  /** The service has been stopped: only suspended continuations are left. */
  ghost predicate Quiet(s: State) {
    && s.session == None && s.abortRequested && s.attempt == None && s.timer == None
    && s.queue == [] && s.windowIds == {}
  }

  // ---------------------------------------------------------------- actions

  /** A transition written with the given `from`. */
  function Written(s: State, t: TraceId, from: Option<TraceState>, to: TraceState, reason: Reason): State {
    var chain := if t in s.chains then s.chains[t] else [];
    s.(chains := s.chains[t := chain + [Entry(from, to, reason)]], traceState := s.traceState[t := to])
  }

  /** The audit is append-only: no trace disappears from it and no row is taken back. */
  ghost predicate AppendOnly(s: State, s': State) {
    forall x | x in s.chains :: x in s'.chains && s.chains[x] <= s'.chains[x]
  }

  /** Rows are only added, and a trace that was finished before is left alone: same state, same rows. */
  ghost predicate FinishedKept(s: State, s': State) {
    && AppendOnly(s, s')
    && (forall x | x in s.traceState && Terminal(s.traceState[x]) && x in s.chains ::
          && x in s'.traceState && s'.traceState[x] == s.traceState[x]
          && x in s'.chains && s'.chains[x] == s.chains[x])
  }

  /** Nothing but the rows and the state of `t` differs. */
  ghost predicate OnlyTrace(s: State, s': State, t: TraceId) {
    && t in s'.traceState && t in s'.chains
    && s' == s.(traceState := s.traceState[t := s'.traceState[t]], chains := s.chains[t := s'.chains[t]])
  }

  lemma WrittenBook(s: State, t: TraceId, to: TraceState, reason: Reason, x: TraceId)
    requires t in s.traceState && t in s.chains && BookOk(s, t)
    requires Allowed(Some(s.traceState[t]), to) && Fits(to, reason)
    requires x in s.chains && BookOk(s, x)
    ensures BookOk(Written(s, t, Some(s.traceState[t]), to, reason), x)
  {
  }

  /** Placement depends on the fields of references and on the trace's own state only. */
  lemma SamePlace(s: State, s': State, x: TraceId)
    requires s'.queue == s.queue && s'.windowIds == s.windowIds && s'.conts == s.conts
    requires s'.attempt == s.attempt && s'.timer == s.timer && s'.abortRequested == s.abortRequested
    requires x in s.traceState && x in s'.traceState && s'.traceState[x] == s.traceState[x]
    requires Placed(s, x)
    ensures Placed(s', x)
  {
  }

  /** The state a trace passes through when it cannot be discarded where it stands. */
  function Detour(state: TraceState): Option<TraceState> {
    match state
    case Received => Some(Normalized)
    case Routed => Some(Retrieving)
    case DirectReady => Some(DisplayReady)
    case PromptRendered => Some(LlmPending)
    case _ => None
  }

  lemma Detours()
    ensures Detour(Received) == Some(Normalized) && ReasonFor(Normalized) == Some(NormalizationOk)
    ensures Detour(Routed) == Some(Retrieving) && ReasonFor(Retrieving) == Some(RetrievalStarted)
    ensures Detour(DirectReady) == Some(DisplayReady) && ReasonFor(DisplayReady) == Some(OutputValidated)
    ensures Detour(PromptRendered) == Some(LlmPending) && ReasonFor(LlmPending) == Some(ProviderRequested)
  {
  }

  /** The rows that close a trace from a state, the last of them with the reason given. */
  function ClosingRows(state: TraceState, reason: Reason): seq<Entry> {
    if Terminal(state) then []
    else if state == Displayed then [Entry(Some(Displayed), Hidden, DisplayDurationElapsed)]
    else match Detour(state)
      case None => [Entry(Some(state), Discarded, reason)]
      case Some(via) =>
        [Entry(Some(state), via, ReasonFor(via).value), Entry(Some(via), Discarded, reason)]
  }

  /** What closing a trace with a reason leaves: the rows that close it and the state of the last. */
  ghost predicate ClosedWith(s: State, s': State, t: TraceId, reason: Reason) {
    && t in s.traceState && t in s.chains && t in s'.traceState && t in s'.chains && s'.chains[t] != []
    && s'.chains[t] == s.chains[t] + ClosingRows(s.traceState[t], reason)
    && s'.traceState[t] == if Terminal(s.traceState[t]) then s.traceState[t]
                           else if s.traceState[t] == Displayed then Hidden else Discarded
  }

  /** One legal row closes a trace that stood anywhere but DISPLAYED. */
  lemma ClosedInOne(s: State, s': State, t: TraceId, reason: Reason)
    requires t in s.traceState && t in s.chains && OnlyTrace(s, s', t)
    requires s.traceState[t] in {Normalized, Retrieving, LlmPending, Generated, DisplayReady}
    requires s'.traceState[t] == Discarded
    requires s'.chains[t] == s.chains[t] + [Entry(Some(s.traceState[t]), Discarded, reason)]
    ensures ClosedWith(s, s', t, reason)
  {
  }

  /** As `ClosedInOne`, with one more row before the last. */
  lemma ClosedInTwo(s: State, m: State, s': State, t: TraceId, how: Reason, reason: Reason)
    requires t in s.traceState && t in s.chains && OnlyTrace(s, m, t) && OnlyTrace(m, s', t)
    requires Detour(s.traceState[t]) == Some(m.traceState[t]) && ReasonFor(m.traceState[t]) == Some(how)
    requires m.chains[t] == s.chains[t] + [Entry(Some(s.traceState[t]), m.traceState[t], how)]
    requires s'.traceState[t] == Discarded
    requires s'.chains[t] == m.chains[t] + [Entry(Some(m.traceState[t]), Discarded, reason)]
    ensures OnlyTrace(s, s', t) && ClosedWith(s, s', t, reason) && FinishedKept(s, s')
  {
    assert s.traceState[t := s'.traceState[t]] == m.traceState[t := s'.traceState[t]];
    assert s.chains[t := s'.chains[t]] == m.chains[t := s'.chains[t]];
  }

  /** Closing is idempotent: a finished trace stays as it is. */
  lemma ClosedAlready(s: State, t: TraceId, reason: Reason)
    requires t in s.traceState && t in s.chains && s.chains[t] != [] && Terminal(s.traceState[t])
    ensures OnlyTrace(s, s, t) && ClosedWith(s, s, t, reason) && FinishedKept(s, s)
  {
    assert s.traceState == s.traceState[t := s.traceState[t]] && s.chains == s.chains[t := s.chains[t]];
  }

  lemma ClosedByHiding(s: State, s': State, t: TraceId, reason: Reason)
    requires t in s.traceState && t in s.chains && OnlyTrace(s, s', t)
    requires s.traceState[t] == Displayed && s'.traceState[t] == Hidden
    requires s'.chains[t] == s.chains[t] + [Entry(Some(Displayed), Hidden, DisplayDurationElapsed)]
    ensures ClosedWith(s, s', t, reason)
  {
  }

  /** What closing a trace that has just become ready to be pushed writes. */
  lemma ClosedDirect(a: State, b: State, c: State, t: TraceId, reason: Reason)
    requires t in a.chains && t in b.chains && t in b.traceState && b.traceState[t] == DirectReady
    requires b.chains[t] == a.chains[t] + [Entry(Some(Retrieving), DirectReady, GoldenDirectEligible)]
    requires ClosedWith(b, c, t, reason)
    ensures c.chains[t] == a.chains[t] + [Entry(Some(Retrieving), DirectReady, GoldenDirectEligible),
                                          Entry(Some(DirectReady), DisplayReady, OutputValidated),
                                          Entry(Some(DisplayReady), Discarded, reason)]
  {
  }

  /** What closing a trace writes that may be discarded where it stands. */
  lemma ClosedAt(s: State, s': State, t: TraceId, state: TraceState, reason: Reason)
    requires t in s.traceState && s.traceState[t] == state && ClosedWith(s, s', t, reason)
    requires state in {Normalized, Retrieving, LlmPending, Generated, DisplayReady}
    ensures s'.chains[t] == s.chains[t] + [Entry(Some(state), Discarded, reason)]
  {
  }

  function Elements(ids: seq<TraceId>): set<TraceId> {
    set t | t in ids
  }

  /** Nothing but the rows and the states of `ids`, and the index of the window, differs. */
  ghost predicate OnlyTraces(s: State, s': State, ids: set<TraceId>) {
    && s' == s.(traceState := s'.traceState, chains := s'.chains, windowed := s'.windowed)
    && s'.traceState.Keys == s.traceState.Keys && s'.chains.Keys == s.chains.Keys
    && (forall x | x in s.traceState && x !in ids :: s'.traceState[x] == s.traceState[x])
    && (forall x | x in s.chains && x !in ids :: s'.chains[x] == s.chains[x])
  }

  ghost predicate AllClosed(s: State, s': State, ids: set<TraceId>, reason: Reason) {
    forall x | x in ids :: ClosedWith(s, s', x, reason)
  }

  lemma OnlyOneMore(a: State, b: State, c: State, d: State, done: set<TraceId>, t: TraceId)
    requires OnlyTraces(a, b, done) && t in b.traceState && t in b.chains && OnlyTrace(b, c, t)
    requires d == c.(windowed := d.windowed)
    ensures OnlyTraces(a, d, done + {t})
  {
  }

  lemma ClosedSince(a: State, b: State, c: State, t: TraceId, reason: Reason)
    requires t in a.traceState && t in b.traceState && b.traceState[t] == a.traceState[t]
    requires t in a.chains && t in b.chains && b.chains[t] == a.chains[t]
    requires ClosedWith(b, c, t, reason)
    ensures ClosedWith(a, c, t, reason)
  {
  }

  /** One more trace of a list is closed. */
  lemma CloseOneMore(a: State, b: State, c: State, d: State, done: set<TraceId>, t: TraceId, reason: Reason)
    requires OnlyTraces(a, b, done) && AllClosed(a, b, done, reason)
    requires t in b.traceState && t in b.chains && OnlyTrace(b, c, t)
    requires ClosedWith(b, c, t, reason) && FinishedKept(b, c)
    requires d == c.(windowed := d.windowed)
    ensures OnlyTraces(a, d, done + {t}) && AllClosed(a, d, done + {t}, reason)
  {
    OnlyOneMore(a, b, c, d, done, t);
    hide ClosedWith, FinishedKept, OnlyTrace;
    forall x | x in done + {t}
      ensures ClosedWith(a, d, x, reason)
    {
      if x in done {
        StaysClosed(a, b, c, x, reason);
      } else {
        ClosedSince(a, b, c, x, reason);
      }
      ClosedIndexed(a, c, d, x, reason);
    }
  }

  /** Closing does not concern the index of the window. */
  lemma ClosedIndexed(a: State, c: State, d: State, t: TraceId, reason: Reason)
    requires ClosedWith(a, c, t, reason) && d == c.(windowed := d.windowed)
    ensures ClosedWith(a, d, t, reason)
  {
  }

  lemma AllStayClosed(a: State, b: State, c: State, ids: set<TraceId>, reason: Reason)
    requires AllClosed(a, b, ids, reason) && FinishedKept(b, c)
    ensures AllClosed(a, c, ids, reason)
  {
    hide ClosedWith, FinishedKept;
    forall x | x in ids
      ensures ClosedWith(a, c, x, reason)
    {
      StaysClosed(a, b, c, x, reason);
    }
  }

  /** Closing does not depend on when the trace's rows were last looked at. */
  lemma AllClosedSince(a: State, b: State, c: State, ids: set<TraceId>, reason: Reason)
    requires AllClosed(b, c, ids, reason) && a.traceState == b.traceState && a.chains == b.chains
    ensures AllClosed(a, c, ids, reason)
  {
  }

  /** The traces closed last were not touched when `t` was. */
  lemma AllClosedAfter(a: State, b: State, c: State, t: TraceId, ids: set<TraceId>, reason: Reason)
    requires OnlyTrace(a, b, t) && t !in ids && AllClosed(b, c, ids, reason)
    ensures AllClosed(a, c, ids, reason)
  {
    hide ClosedWith;
    forall x | x in ids
      ensures ClosedWith(a, c, x, reason)
    {
      ClosedKnown(b, c, x, reason);
      ClosedSince(a, b, c, x, reason);
    }
  }

  lemma ClosedKnown(a: State, b: State, t: TraceId, reason: Reason)
    requires ClosedWith(a, b, t, reason)
    ensures t in a.traceState && t in a.chains
  {
  }

  lemma NoneClosed(s: State, reason: Reason)
    ensures OnlyTraces(s, s, {}) && AllClosed(s, s, {}, reason)
  {
  }

  lemma ClosedIsFinished(a: State, b: State, t: TraceId, reason: Reason)
    requires ClosedWith(a, b, t, reason)
    ensures t in b.traceState && Terminal(b.traceState[t])
  {
  }

  lemma ClosedExtends(a: State, b: State, t: TraceId, reason: Reason)
    requires ClosedWith(a, b, t, reason)
    ensures t in a.chains && t in b.chains && a.chains[t] <= b.chains[t]
    ensures t in b.traceState && Terminal(b.traceState[t])
  {
  }

  lemma ClosedSinceTaken(a: State, b: State, c: State, t: TraceId, reason: Reason)
    requires b.traceState == a.traceState && b.chains == a.chains && ClosedWith(b, c, t, reason)
    ensures ClosedWith(a, c, t, reason)
  {
  }

  lemma ClosedLater(a: State, b: State, c: State, t: TraceId, reason: Reason)
    requires b.traceState == a.traceState && b.chains == a.chains
    ensures ClosedWith(b, c, t, reason) ==> ClosedWith(a, c, t, reason)
  {
  }

  lemma StillFinished(a: State, b: State, t: TraceId)
    requires FinishedKept(a, b) && t in a.traceState && t in a.chains && Terminal(a.traceState[t])
    ensures t in b.traceState && t in b.chains && b.traceState[t] == a.traceState[t] && b.chains[t] == a.chains[t]
  {
  }

  lemma ClosedAreFinished(a: State, b: State, ids: set<TraceId>, reason: Reason)
    requires AllClosed(a, b, ids, reason)
    ensures forall x | x in ids :: x in b.traceState && Terminal(b.traceState[x])
  {
  }

  /** A closed trace is finished, so what closed it last stays on record. */
  lemma StaysClosed(a: State, b: State, c: State, t: TraceId, reason: Reason)
    requires ClosedWith(a, b, t, reason) && FinishedKept(b, c)
    ensures ClosedWith(a, c, t, reason)
  {
  }

  lemma FinishedTrans(a: State, b: State, c: State)
    requires FinishedKept(a, b) && FinishedKept(b, c)
    ensures FinishedKept(a, c)
  {
  }

  lemma AppendTrans(a: State, b: State, c: State)
    requires AppendOnly(a, b) && AppendOnly(b, c)
    ensures AppendOnly(a, c)
  {
  }

  lemma SameRows(a: State, b: State, c: State)
    requires AppendOnly(a, b) && c.chains == b.chains
    ensures AppendOnly(a, c)
  {
  }

  lemma FinishedAppends(a: State, b: State)
    requires FinishedKept(a, b)
    ensures AppendOnly(a, b)
  {
  }

  lemma OutsideKept(a: State, b: State, ids: set<TraceId>, t: TraceId)
    requires OnlyTraces(a, b, ids) && t !in ids && t in a.traceState && t in a.chains
    ensures t in b.traceState && t in b.chains && b.traceState[t] == a.traceState[t] && b.chains[t] == a.chains[t]
  {
  }

  lemma FinishedSame(a: State, b: State)
    requires b.traceState == a.traceState && b.chains == a.chains
    ensures FinishedKept(a, b)
  {
  }

  /** Writing a legal next state keeps the invariant for a trace in hand. */
  lemma WrittenKeeps(s: State, hand: set<TraceId>, t: TraceId, to: TraceState, reason: Reason)
    requires Inv(s, hand) && t in hand
    requires Allowed(Some(s.traceState[t]), to) && Fits(to, reason)
    ensures Inv(Written(s, t, Some(s.traceState[t]), to, reason), hand)
  {
    var s' := Written(s, t, Some(s.traceState[t]), to, reason);
    forall x | x in s'.chains
      ensures BookOk(s', x)
    {
      WrittenBook(s, t, to, reason, x);
    }
    forall x | x in s'.traceState && x !in hand
      ensures Placed(s', x)
    {
      SamePlace(s, s', x);
    }
    assert Closed(s', hand) && WindowAgrees(s', hand);
  }

  lemma BegunBook(s: State, t: TraceId, x: TraceId)
    requires t !in s.chains && t < s.next
    requires x == t || (x in s.chains && BookOk(s, x))
    ensures BookOk(Written(s, t, None, Received, EventReceived), x)
  {
  }

  lemma BegunClosed(s: State, hand: set<TraceId>, t: TraceId)
    requires Closed(s, hand) && WindowAgrees(s, hand)
    requires t !in s.chains && t in s.comments
    ensures Closed(Written(s, t, None, Received, EventReceived), hand + {t})
    ensures WindowAgrees(Written(s, t, None, Received, EventReceived), hand + {t})
  {
  }

  /** Beginning a trace puts it in hand in state RECEIVED. */
  lemma BegunKeeps(s: State, hand: set<TraceId>, t: TraceId)
    requires Inv(s, hand)
    requires t !in s.chains && t in s.comments && t < s.next
    ensures Inv(Written(s, t, None, Received, EventReceived), hand + {t})
  {
    var s' := Written(s, t, None, Received, EventReceived);
    BegunClosed(s, hand, t);
    forall x | x in s'.chains
      ensures BookOk(s', x)
    {
      BegunBook(s, t, x);
    }
    forall x | x in s'.traceState && x !in hand + {t}
      ensures Placed(s', x)
    {
      SamePlace(s, s', x);
    }
  }

  /** The next trace id has not been audited, nor is anything referring to it. */
  lemma NextIsFresh(s: State, hand: set<TraceId>)
    requires Inv(s, hand)
    ensures s.next !in s.chains && s.next !in s.traceState && s.next !in s.queue && s.next !in s.windowIds
    ensures s.next !in s.conts && s.attempt != Some(s.next)
    ensures s.next in s.windowed ==> s.next in hand
  {
    forall x | x in s.chains
      ensures x < s.next
    {
      assert BookOk(s, x);
    }
  }

  /** Only the place of `t` may differ between the two. */
  ghost predicate SamePlaceButFor(s: State, s': State, t: TraceId) {
    && s'.traceState == s.traceState && s'.chains == s.chains && s'.comments.Keys == s.comments.Keys
    && s'.next == s.next && s'.refused == s.refused && s'.version == s.version
    && s.attempts.Keys <= s'.attempts.Keys <= s'.comments.Keys
    && (s.abortRequested ==> s'.abortRequested)
    && (s'.timer == s.timer || s'.timer == Some(t) || (s.timer == Some(t) && s'.timer == None))
    && (|| s'.attempt == s.attempt
        || (s.attempt == Some(t) && s'.attempt == None)
        || (s.attempt == None && s'.attempt == Some(t)))
    && (forall x | x != t :: (x in s'.queue <==> x in s.queue)
                             && (x in s'.windowIds <==> x in s.windowIds)
                             && (x in s'.windowed <==> x in s.windowed)
                             && (x in s'.conts <==> x in s.conts)
                             && (x in s.conts ==> s'.conts[x] == s.conts[x]))
    && (forall x | x in s.comments && x != t :: s'.comments[x] == s.comments[x])
  }

  /** What must hold of the new place of `t` itself. */
  ghost predicate NewPlaceOk(s': State, hand': set<TraceId>, t: TraceId) {
    && (t in s'.windowIds ==> t in s'.windowed && t in s'.comments && s'.comments[t].windowVersion == s'.version)
    && (t in s'.windowed ==> t in s'.windowIds || t in hand')
    && (s'.attempt.Some? ==> s'.attempt.value in s'.attempts)
    && (s'.timer.Some? ==> s'.timer == s'.attempt)
    && (t in s'.conts && !OfSearch(s'.conts[t]) ==> t in s'.attempts)
    && Ascending(s'.queue) && |s'.queue| <= QUEUE_MAX
  }

  lemma MoveBooks(s: State, s': State, x: TraceId)
    requires s'.traceState == s.traceState && s'.chains == s.chains && s'.next == s.next
    requires x in s.chains && BookOk(s, x)
    ensures BookOk(s', x)
  {
  }

  lemma MovePlaces(s: State, s': State, t: TraceId, x: TraceId)
    requires SamePlaceButFor(s, s', t) && x != t
    requires s'.timer.Some? ==> s'.timer == s'.attempt
    requires x in s.traceState && Placed(s, x)
    ensures Placed(s', x)
  {
  }

  lemma MoveClosed(s: State, s': State, hand: set<TraceId>, hand': set<TraceId>, t: TraceId)
    requires Closed(s, hand) && WindowAgrees(s, hand) && t in s.traceState
    requires SamePlaceButFor(s, s', t) && NewPlaceOk(s', hand', t)
    requires forall x :: x != t ==> (x in hand' <==> x in hand)
    ensures Closed(s', hand') && WindowAgrees(s', hand')
  {
    forall x | x in s'.windowIds
      ensures x in s'.comments && s'.comments[x].windowVersion == s'.version
    {
      assert x == t || x in s.windowIds;
    }
    forall x | x in s'.queue
      ensures x in s'.traceState
    {
      assert x == t || x in s.queue;
    }
  }

  /** Moving one trace between places keeps the invariant when its own new place is right. */
  lemma MoveKeeps(s: State, s': State, hand: set<TraceId>, hand': set<TraceId>, t: TraceId)
    requires Inv(s, hand) && t in s.traceState
    requires SamePlaceButFor(s, s', t) && NewPlaceOk(s', hand', t)
    requires forall x :: x != t ==> (x in hand' <==> x in hand)
    requires t in hand' || Placed(s', t)
    ensures Inv(s', hand')
  {
    forall x | x in s'.chains
      ensures BookOk(s', x)
    {
      MoveBooks(s, s', x);
    }
    forall x | x in s'.traceState && x !in hand'
      ensures Placed(s', x)
    {
      if x != t {
        MovePlaces(s, s', t, x);
      }
    }
    MoveClosed(s, s', hand, hand', t);
  }

  /** Candidates that left the window are in hand until their traces are closed. */
  lemma EvictKeeps(s: State, hand: set<TraceId>, kept: set<TraceId>, evicted: set<TraceId>)
    requires Inv(s, hand)
    requires s.windowIds == kept + evicted
    ensures Inv(s.(windowIds := kept), hand + evicted)
  {
    var s' := s.(windowIds := kept);
    forall x | x in s'.chains
      ensures BookOk(s', x)
    {
      assert BookOk(s, x);
    }
    forall x | x in s'.traceState && x !in hand + evicted
      ensures Placed(s', x)
    {
      assert Placed(s, x);
    }
  }

  // ------------------------------------------------------------- consequences

  /** The four places a live trace can wait in. */
  datatype Owner = Backlog | Search | Window | CurrentAttempt

  predicate OwnedBy(s: State, t: TraceId, o: Owner) {
    match o
    case Backlog => t in s.queue
    case Search => t in s.conts && OfSearch(s.conts[t])
    case Window => t in s.windowIds
    case CurrentAttempt => s.attempt == Some(t)
  }

  function OwnerOf(s: State, t: TraceId): Owner {
    if t in s.queue then Backlog
    else if t in s.conts && OfSearch(s.conts[t]) then Search
    else if t in s.windowIds then Window
    else CurrentAttempt
  }

  /**
   * No trace is lost: between steps every begun trace that is not terminal has
   * exactly one owner, and the owner tells its state.
   */
  lemma NoTraceLost(s: State, t: TraceId)
    requires Ready(s) && t in s.chains && !Terminal(Last(s.chains[t]))
    ensures t in s.traceState && s.traceState[t] == Last(s.chains[t])
    ensures forall o :: OwnedBy(s, t, o) <==> o == OwnerOf(s, t)
    ensures OwnerOf(s, t).Backlog? ==> s.traceState[t] == Normalized
    ensures OwnerOf(s, t).Search? || OwnerOf(s, t).Window? ==> s.traceState[t] == Retrieving
    ensures OwnerOf(s, t).CurrentAttempt? ==> t in s.conts || s.timer == Some(t)
  {
    assert BookOk(s, t);
    assert Placed(s, t);
  }

  /** A trace with an owner is not terminal, except an attempt whose show hook or duration read threw. */
  lemma OwnedIsLive(s: State, t: TraceId, o: Owner)
    requires Ready(s) && OwnedBy(s, t, o)
    requires o.CurrentAttempt? ==> t in s.conts || s.timer == Some(t)
    ensures t in s.chains && !Terminal(Last(s.chains[t]))
  {
    hide IsPath, WindowAgrees, Ascending;
    assert t in s.traceState;
    assert BookOk(s, t);
    assert Placed(s, t);
  }

  /** At most one trace is past retrieval, and it is the current attempt's. */
  lemma SingleFlight(s: State, t: TraceId)
    requires Ready(s) && t in s.chains && InAttempt(Last(s.chains[t]))
    ensures s.attempt == Some(t)
    ensures s.timer.Some? ==> s.timer == Some(t) && Last(s.chains[t]) == Displayed
  {
    assert BookOk(s, t);
    assert Placed(s, t);
    if s.timer.Some? {
      assert Placed(s, s.timer.value);
    }
  }

  /** Once stopped and out of continuations, every trace ever begun is terminal. */
  lemma SettledIsTerminal(s: State, t: TraceId)
    requires Ready(s) && Quiet(s) && s.conts == map[] && t in s.chains
    ensures Terminal(Last(s.chains[t]))
  {
    assert BookOk(s, t);
    if t in s.traceState {
      assert Placed(s, t);
    }
  }

  /** Between steps each trace's rows are one contiguous path that revisits no state. */
  lemma ChainsAreContiguous(s: State, t: TraceId)
    requires Ready(s) && t in s.chains
    ensures IsPath(s.chains[t]) && |s.chains[t]| <= 10
    ensures forall i, j | 0 <= i < j < |s.chains[t]| :: s.chains[t][i].to != s.chains[t][j].to
    ensures forall i | 0 <= i < |s.chains[t]| - 1 :: !Terminal(s.chains[t][i].to)
  {
    assert BookOk(s, t);
    PathEndsAtTerminal(s.chains[t]);
    forall i, j | 0 <= i < j < |s.chains[t]|
      ensures s.chains[t][i].to != s.chains[t][j].to
    {
      PathClimbs(s.chains[t], i, j);
    }
  }

  lemma AllTerminal(s: State)
    requires Ready(s) && Quiet(s) && s.conts == map[]
    ensures forall t | t in s.chains :: s.chains[t] != [] && Terminal(Last(s.chains[t]))
  {
    forall t | t in s.chains
      ensures s.chains[t] != [] && Terminal(Last(s.chains[t]))
    {
      assert BookOk(s, t);
      SettledIsTerminal(s, t);
    }
  }

  /** The consequences of the invariant for all traces at once. */
  lemma Consequences(s: State)
    requires Ready(s)
    ensures forall t | t in s.chains :: IsPath(s.chains[t]) && |s.chains[t]| <= 10
    ensures forall t | t in s.chains && !Terminal(Last(s.chains[t])) ::
      exists o :: OwnedBy(s, t, o) && forall o' :: OwnedBy(s, t, o') ==> o' == o
    ensures forall t, u | t in s.chains && u in s.chains
      && InAttempt(Last(s.chains[t])) && InAttempt(Last(s.chains[u])) :: t == u
    ensures |s.queue| <= QUEUE_MAX && !s.refused
    ensures s.windowed == s.windowIds
    ensures forall t | t in s.windowIds :: t in s.comments && s.comments[t].windowVersion == s.version
  {
    assert forall t | t in s.windowed :: t in s.windowIds;
    forall t | t in s.chains
      ensures IsPath(s.chains[t]) && |s.chains[t]| <= 10
    {
      ChainsAreContiguous(s, t);
    }
    forall t | t in s.chains && !Terminal(Last(s.chains[t]))
      ensures exists o :: OwnedBy(s, t, o) && forall o' :: OwnedBy(s, t, o') ==> o' == o
    {
      NoTraceLost(s, t);
      assert OwnedBy(s, t, OwnerOf(s, t));
    }
    forall t | t in s.chains && InAttempt(Last(s.chains[t]))
      ensures s.attempt == Some(t)
    {
      SingleFlight(s, t);
    }
  }

  // ----------------------------------------------------- after an abort request

  /** What a resumed continuation may leave behind once an abort was asked for. */
  ghost predicate Spent(before: map<TraceId, Stage>, after: map<TraceId, Stage>, t: TraceId)
    requires t in before
  {
    || after == before - {t}
    || (after == before[t := AttemptThrown] && !Thrown(before[t]))
    || (after == before[t := SearchThrown] && !Thrown(before[t]))
  }

  predicate Thrown(stage: Stage) {
    stage.SearchThrown? || stage.AttemptThrown?
  }

  function Awaiting(conts: map<TraceId, Stage>): set<TraceId> {
    set t | t in conts && !Thrown(conts[t])
  }

  /** Every such step uses up an awaited promise or a rejected one. */
  lemma SpentDecreases(before: map<TraceId, Stage>, after: map<TraceId, Stage>, t: TraceId)
    requires t in before && Spent(before, after, t)
    ensures |Awaiting(after)| < |Awaiting(before)| || (Awaiting(after) == Awaiting(before) && |after| < |before|)
  {
    if after == before - {t} {
      assert before.Keys == after.Keys + {t};
      assert |before.Keys| == |after.Keys| + 1;
      if Thrown(before[t]) {
        assert Awaiting(after) == Awaiting(before);
      } else {
        assert Awaiting(before) == Awaiting(after) + {t};
      }
    } else {
      assert Awaiting(before) == Awaiting(after) + {t};
    }
  }

  // ------------------------------------------------------------------ backlog

  /** How a queued comment left the backlog. */
  datatype Departure =
    | Promoted(waited: int, timeout: int)
    | TimedOut(waited: int, timeout: int)
    | ClosedOut

  predicate InTime(d: Departure) {
    match d
    case Promoted(waited, timeout) => waited <= timeout
    case TimedOut(waited, timeout) => waited > timeout
    case ClosedOut => true
  }

  lemma PromotedInTime(d: Departure)
    requires d.Promoted? && d.waited <= d.timeout
    ensures InTime(d)
  {
  }

  /**
   * Every comment ever queued is either still queued or has left exactly once,
   * promotions happen in arrival order, and none waited past the timeout.
   */
  ghost predicate Ledger(queue: seq<TraceId>, enqueued: set<TraceId>, left: map<TraceId, Departure>,
                         promotions: seq<TraceId>, next: nat)
  {
    && Ascending(queue)
    && Ascending(promotions)
    && (forall t :: t in enqueued <==> t in queue || t in left)
    && (forall t | t in queue :: t !in left)
    && (forall t | t in enqueued :: t < next)
    && (forall t | t in left :: InTime(left[t]))
    && (forall t :: t in promotions <==> t in left && left[t].Promoted?)
    && (forall p, q | p in promotions && q in queue :: p < q)
  }

  /** The books of the backlog. */
  datatype Account = Account(enqueued: set<TraceId>, left: map<TraceId, Departure>, promotions: seq<TraceId>)

  /** Nothing entered in the books is struck out or rewritten. */
  ghost predicate BooksGrow(a: Account, b: Account) {
    && a.enqueued <= b.enqueued
    && (forall t | t in a.left :: t in b.left && b.left[t] == a.left[t])
    && a.promotions <= b.promotions
  }

  lemma AllHaveLeft(a: Account, next: nat)
    requires Ledger([], a.enqueued, a.left, a.promotions, next)
    ensures a.enqueued == a.left.Keys
  {
  }

  lemma NothingEntered(a: Account)
    ensures BooksGrow(a, a)
  {
  }

  lemma BooksTrans(a: Account, b: Account, c: Account)
    requires BooksGrow(a, b) && BooksGrow(b, c)
    ensures BooksGrow(a, c)
  {
  }

  lemma AscendingSnoc(ids: seq<TraceId>, t: TraceId)
    requires Ascending(ids) && forall x | x in ids :: x < t
    ensures Ascending(ids + [t])
  {
    forall i, j | 0 <= i < j < |ids + [t]|
      ensures (ids + [t])[i] < (ids + [t])[j]
    {
      assert ids[i] in ids;
    }
  }

  lemma LedgerEnqueue(queue: seq<TraceId>, enqueued: set<TraceId>, left: map<TraceId, Departure>,
                      promotions: seq<TraceId>, t: TraceId)
    requires Ledger(queue, enqueued, left, promotions, t)
    ensures Ledger(queue + [t], enqueued + {t}, left, promotions, t + 1)
  {
    forall x | x in queue
      ensures x < t
    {
      assert x in enqueued;
    }
    AscendingSnoc(queue, t);
    assert t !in enqueued;
    forall p | p in promotions
      ensures p < t
    {
      assert p in enqueued;
    }
  }

  lemma LedgerPromote(queue: seq<TraceId>, enqueued: set<TraceId>, left: map<TraceId, Departure>,
                      promotions: seq<TraceId>, next: nat, d: Departure)
    requires Ledger(queue, enqueued, left, promotions, next)
    requires queue != [] && d.Promoted? && InTime(d)
    ensures Ledger(queue[1..], enqueued, left[queue[0] := d], promotions + [queue[0]], next)
  {
    assert queue == [queue[0]] + queue[1..];
    assert queue[0] in queue;
    var after := promotions + [queue[0]];
    forall t
      ensures t in queue[1..] <==> t in queue && t != queue[0]
    {
    }
    assert forall t :: t in after <==> t in promotions || t == queue[0];
    AscendingSnoc(promotions, queue[0]);
    forall p, q | p in after && q in queue[1..]
      ensures p < q
    {
      var j :| 0 < j < |queue| && queue[j] == q;
      assert queue[0] < queue[j];
    }
  }

  /** Every queued comment leaves when the backlog is closed. */
  lemma LedgerCloseAll(queue: seq<TraceId>, enqueued: set<TraceId>, left: map<TraceId, Departure>,
                       promotions: seq<TraceId>, next: nat)
    requires Ledger(queue, enqueued, left, promotions, next)
    ensures Ledger([], enqueued, left + (map t | t in queue :: ClosedOut), promotions, next)
  {
  }

  /** The queue without the expired comments, in the same order. */
  function Without(queue: seq<TraceId>, expired: set<TraceId>): seq<TraceId> {
    if queue == [] then []
    else
      var last := queue[|queue| - 1];
      Without(queue[..|queue| - 1], expired) + if last in expired then [] else [last]
  }

  lemma WithoutNothing(expired: set<TraceId>)
    ensures Without([], expired) == []
  {
  }

  lemma WithoutStep(queue: seq<TraceId>, i: nat, expired: set<TraceId>)
    requires i < |queue|
    ensures Without(queue[..i + 1], expired) ==
      Without(queue[..i], expired) + if queue[i] in expired then [] else [queue[i]]
  {
    assert queue[..i + 1][..i] == queue[..i];
  }

  lemma {:induction false} WithoutKeeps(queue: seq<TraceId>, expired: set<TraceId>)
    requires Ascending(queue)
    ensures forall x :: x in Without(queue, expired) <==> x in queue && x !in expired
    ensures Ascending(Without(queue, expired)) && |Without(queue, expired)| <= |queue|
  {
    if queue != [] {
      var init := queue[..|queue| - 1];
      var last := queue[|queue| - 1];
      assert queue == init + [last];
      WithoutKeeps(init, expired);
      if last !in expired {
        AscendingSnoc(Without(init, expired), last);
      }
    }
  }

  /** The queued comments that have waited longer than the timeout. */
  function Overdue(queue: seq<TraceId>, comments: map<TraceId, Comment>, at: int, timeout: int): set<TraceId> {
    set t | t in queue && t in comments && at - comments[t].received > timeout
  }

  function TimeOuts(expired: set<TraceId>, comments: map<TraceId, Comment>, now: int, timeout: int)
    : map<TraceId, Departure>
    requires expired <= comments.Keys
  {
    map t | t in expired :: TimedOut(now - comments[t].received, timeout)
  }

  /** The expired comments leave by timeout, each once; the order of the others stands. */
  lemma LedgerExpire(queue: seq<TraceId>, expired: set<TraceId>, comments: map<TraceId, Comment>, now: int,
                     timeout: int, enqueued: set<TraceId>, left: map<TraceId, Departure>,
                     promotions: seq<TraceId>, next: nat)
    requires Ledger(queue, enqueued, left, promotions, next)
    requires forall t | t in expired :: t in queue && t in comments && now - comments[t].received > timeout
    ensures expired <= comments.Keys
    ensures
      Ledger(Without(queue, expired), enqueued, left + TimeOuts(expired, comments, now, timeout), promotions, next)
  {
    WithoutKeeps(queue, expired);
  }
}
