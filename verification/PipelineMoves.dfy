/** The moves a step makes, each a small change of the snapshot that keeps the invariant. */
module PipelineMoves {
  import opened Wrappers
  import opened Trace
  import opened Pipeline

  /** Nothing in the snapshot refers to `t`. */
  ghost predicate Unreferenced(s: State, t: TraceId) {
    && t !in s.queue && t !in s.windowIds && t !in s.windowed && t !in s.conts && s.attempt != Some(t)
  }

  lemma HandKnown(s: State, hand: set<TraceId>, t: TraceId)
    requires Inv(s, hand) && t in hand
    ensures t in s.traceState && t in s.comments && t in s.chains
    ensures IsPath(s.chains[t]) && Last(s.chains[t]) == s.traceState[t]
  {
    assert BookOk(s, t);
  }

  /** Without an abort request a finished trace that does not hold the mutex has nothing left to run. */
  lemma FinishedHasNoCont(s: State, t: TraceId)
    requires Inv(s, {}) && t in s.traceState && Terminal(s.traceState[t]) && s.attempt != Some(t) && !s.abortRequested
    ensures t !in s.conts
  {
    assert Placed(s, t);
  }

  /** The holder of the mutex is audited, and a hidden one has nothing left to run. */
  lemma MutexKnown(s: State, t: TraceId)
    requires Inv(s, {}) && s.attempt == Some(t)
    ensures t in s.traceState && t in s.chains && t != s.next
    ensures s.traceState[t] == Hidden ==> t !in s.conts && s.timer == None
  {
    hide IsPath, WindowAgrees, Ascending;
    assert Placed(s, t);
    assert BookOk(s, t);
  }

  /** The current attempt that waits for its display duration is displayed. */
  lemma DurationAwaited(s: State, t: TraceId)
    requires Inv(s, {}) && t in s.conts && s.conts[t] == AwaitDuration
    ensures t in s.traceState && (s.attempt == Some(t) ==> s.traceState[t] == Displayed)
  {
    assert Placed(s, t);
  }

  /** While a hidden trace holds the mutex no trace is past retrieval. */
  lemma NothingInFlight(s: State, t: TraceId)
    requires Ready(s) && s.attempt == Some(t) && t in s.traceState && s.traceState[t] == Hidden
    ensures forall u | u in s.chains :: s.chains[u] != [] && !InAttempt(Last(s.chains[u]))
  {
    forall u | u in s.chains
      ensures s.chains[u] != [] && !InAttempt(Last(s.chains[u]))
    {
      assert BookOk(s, u);
      if InAttempt(Last(s.chains[u])) {
        SingleFlight(s, u);
      }
    }
  }

  /** The passing of time moves no trace. */
  lemma Later(s: State, s': State, hand: set<TraceId>)
    requires Inv(s, hand) && s' == s.(clock := s'.clock)
    ensures Inv(s', hand)
  {
    hide IsPath;
    forall x | x in s'.chains
      ensures BookOk(s', x)
    {
      assert BookOk(s, x);
    }
    forall x | x in s'.traceState && x !in hand
      ensures Placed(s', x)
    {
      SamePlace(s, s', x);
    }
  }

  // ------------------------------------------------------------------- taking

  lemma TakeSearch(s: State, t: TraceId)
    requires Ready(s) && t in s.conts && OfSearch(s.conts[t])
    ensures Inv(s.(conts := s.conts - {t}), {t})
    ensures Unreferenced(s.(conts := s.conts - {t}), t)
    ensures t in s.traceState && t in s.comments && s.traceState[t] == Retrieving
  {
    hide BookOk;
    assert Placed(s, t);
    MoveKeeps(s, s.(conts := s.conts - {t}), {}, {t}, t);
  }

  lemma TakeAttempt(s: State, t: TraceId)
    requires Ready(s) && t in s.conts && !OfSearch(s.conts[t])
    ensures Inv(s.(conts := s.conts - {t}), {t})
    ensures Unreferenced(s.(conts := s.conts - {t}, attempt := None), t)
    ensures t in s.traceState && t in s.comments && t in s.attempts && s.timer != Some(t)
    ensures if s.attempt == Some(t) then !s.abortRequested && StageState(s.conts[t], s.traceState[t]) && s.timer == None
            else s.abortRequested && s.attempt == None && Terminal(s.traceState[t])
  {
    hide BookOk;
    assert Placed(s, t);
    MoveKeeps(s, s.(conts := s.conts - {t}), {}, {t}, t);
  }

  /** The current attempt is taken in hand where it stands. */
  lemma TakeCurrent(s: State, t: TraceId)
    requires Inv(s, {}) && s.attempt == Some(t)
    ensures Inv(s, {t})
    ensures t in s.traceState && t in s.comments && t in s.attempts
    ensures t !in s.queue && t !in s.windowIds && t !in s.windowed
    ensures t in s.conts ==> !OfSearch(s.conts[t])
    ensures s.timer == Some(t) ==> s.traceState[t] == Displayed && t !in s.conts
  {
    hide BookOk;
    assert Placed(s, t);
    MoveKeeps(s, s, {}, {t}, t);
  }

  lemma BeginNext(s: State, c: Comment)
    requires Inv(s, {})
    ensures Inv(s.(comments := s.comments[s.next := c], next := s.next + 1), {})
    ensures s.next !in s.chains && s.next !in s.traceState && Unreferenced(s, s.next)
  {
    NextIsFresh(s, {});
    hide BookOk, Placed, Ascending;
    var s' := s.(comments := s.comments[s.next := c], next := s.next + 1);
    assert Closed(s', {}) && WindowAgrees(s', {});
    hide Closed, WindowAgrees;
    forall x | x in s'.chains
      ensures BookOk(s', x)
    {
      BookLater(s, s', x);
    }
    forall x | x in s'.traceState
      ensures Placed(s', x)
    {
      SamePlace(s, s', x);
    }
  }

  lemma BookLater(s: State, s': State, x: TraceId)
    requires s'.chains == s.chains && s'.traceState == s.traceState && s.next <= s'.next
    requires x in s.chains && BookOk(s, x)
    ensures BookOk(s', x)
  {
  }

  // ------------------------------------------------------------------ parking

  lemma ParkSearch(s: State, t: TraceId, stage: Stage)
    requires Inv(s, {t}) && Unreferenced(s, t) && OfSearch(stage)
    requires t in s.traceState && s.traceState[t] == Retrieving
    ensures Inv(s.(conts := s.conts[t := stage]), {})
  {
    hide BookOk;
    MoveKeeps(s, s.(conts := s.conts[t := stage]), {t}, {}, t);
  }

  lemma ParkAttempt(s: State, t: TraceId, stage: Stage)
    requires Inv(s, {t}) && s.attempt == Some(t) && t !in s.queue && t !in s.windowIds && t !in s.windowed
    requires !OfSearch(stage) && s.timer == None && t in s.attempts
    requires t in s.traceState && StageState(stage, s.traceState[t])
    ensures Inv(s.(conts := s.conts[t := stage]), {})
  {
    hide BookOk;
    MoveKeeps(s, s.(conts := s.conts[t := stage]), {t}, {}, t);
  }

  lemma ParkTimer(s: State, t: TraceId)
    requires Inv(s, {t}) && s.attempt == Some(t) && t !in s.queue && t !in s.windowIds && t !in s.windowed
    requires t !in s.conts && t in s.attempts
    requires t in s.traceState && s.traceState[t] == Displayed
    ensures Inv(s.(timer := Some(t)), {})
  {
    hide BookOk;
    MoveKeeps(s, s.(timer := Some(t)), {t}, {}, t);
  }

  /** An attempt whose trace is HIDDEN may be left behind, held but finished. */
  lemma ParkHidden(s: State, t: TraceId)
    requires Inv(s, {t}) && s.attempt == Some(t) && t !in s.queue && t !in s.windowIds && t !in s.windowed
    requires t !in s.conts && s.timer == None
    requires t in s.traceState && s.traceState[t] == Hidden
    ensures Inv(s, {})
  {
    hide BookOk;
    MoveKeeps(s, s, {t}, {}, t);
  }

  /** Releasing the mutex after the attempt's trace was closed. */
  lemma ReleaseAttempt(s: State, t: TraceId)
    requires Inv(s, {t}) && t !in s.queue && t !in s.windowIds && t !in s.windowed
    requires s.attempt == None || s.attempt == Some(t)
    requires t in s.conts ==> s.abortRequested && !OfSearch(s.conts[t])
    requires t in s.traceState && Terminal(s.traceState[t])
    ensures Inv(s.(timer := None, attempt := None), {})
  {
    hide BookOk;
    MoveKeeps(s, s.(timer := None, attempt := None), {t}, {}, t);
  }

  lemma DropLoose(s: State, t: TraceId)
    requires Inv(s, {t}) && Unreferenced(s, t)
    requires t in s.traceState && Terminal(s.traceState[t])
    ensures Inv(s, {})
  {
    hide BookOk;
    MoveKeeps(s, s, {t}, {}, t);
  }

  lemma Enqueue(s: State, t: TraceId)
    requires Inv(s, {t}) && Unreferenced(s, t)
    requires t in s.traceState && s.traceState[t] == Normalized
    requires |s.queue| < QUEUE_MAX && Ascending(s.queue + [t])
    ensures Inv(s.(queue := s.queue + [t]), {})
  {
    hide BookOk;
    MoveKeeps(s, s.(queue := s.queue + [t]), {t}, {}, t);
  }

  // ------------------------------------------------------------------- window

  /** What closing an evicted candidate needs to know of it. */
  ghost predicate Evictable(s: State, ids: set<TraceId>) {
    forall x | x in ids ::
      && x in s.traceState && x in s.windowed
      && x !in s.queue && x !in s.windowIds && x !in s.conts && s.attempt != Some(x)
  }

  /** The candidates that are no longer kept are in hand until they are closed. */
  lemma TakeEvicted(s: State, hand: set<TraceId>, kept: set<TraceId>, evicted: set<TraceId>)
    requires Inv(s, hand) && s.windowIds == kept + evicted && kept !! evicted && hand !! evicted
    ensures Inv(s.(windowIds := kept), hand + evicted)
    ensures Evictable(s.(windowIds := kept), evicted)
  {
    EvictKeeps(s, hand, kept, evicted);
    forall x | x in evicted
      ensures x !in s.queue && x !in s.conts && s.attempt != Some(x) && x in s.traceState && x in s.windowed
    {
      assert x in s.windowIds;
      assert x in s.traceState;
      assert Placed(s, x);
    }
  }

  lemma ToWindow(s: State, t: TraceId)
    requires Inv(s, {t}) && Unreferenced(s, t)
    requires t in s.traceState && s.traceState[t] == Retrieving
    requires t in s.comments && s.comments[t].windowVersion == s.version
    ensures Inv(s.(windowed := s.windowed + {t}, windowIds := s.windowIds + {t}), {})
  {
    hide BookOk;
    MoveKeeps(s, s.(windowed := s.windowed + {t}, windowIds := s.windowIds + {t}), {t}, {}, t);
  }

  lemma EvictableMember(s: State, ids: set<TraceId>, x: TraceId)
    requires Evictable(s, ids) && x in ids
    ensures x in s.traceState && x in s.windowed
  {
  }

  /** Closing one trace leaves the others evictable. */
  lemma EvictableAfterClose(s: State, s': State, ids: set<TraceId>, x: TraceId)
    requires Evictable(s, ids) && OnlyTrace(s, s', x)
    ensures Evictable(s', ids)
  {
  }

  lemma DropEvicted(s: State, base: set<TraceId>, waiting: set<TraceId>, x: TraceId)
    requires Inv(s, base + waiting) && x in waiting && base !! waiting && Evictable(s, waiting)
    requires Terminal(s.traceState[x])
    ensures Inv(s.(windowed := s.windowed - {x}), base + (waiting - {x}))
    ensures Evictable(s.(windowed := s.windowed - {x}), waiting - {x})
  {
    hide BookOk;
    MoveKeeps(s, s.(windowed := s.windowed - {x}), base + waiting, base + (waiting - {x}), x);
  }

  lemma CandidateKnown(s: State, t: TraceId)
    requires Inv(s, {}) && t in s.windowIds
    ensures t in s.traceState && t in s.comments && t in s.chains
  {
  }

  /** The view once candidate `t` has become the attempt. */
  function Selected(s: State, t: TraceId, c: Comment, a: Attempt, at: int): State {
    s.(windowIds := s.windowIds - {t}, windowed := s.windowed - {t}, attempt := Some(t),
       comments := s.comments[t := c], attempts := s.attempts[t := a], clock := at)
  }

  /** A selected candidate becomes the current attempt. */
  lemma Select(s: State, t: TraceId, c: Comment, a: Attempt, at: int)
    requires Inv(s, {}) && t in s.windowIds && s.attempt == None
    ensures t in s.traceState && s.traceState[t] == Retrieving && s.timer == None
    ensures Inv(Selected(s, t, c, a, at), {t}) && Unreferenced(Selected(s, t, c, a, at).(attempt := None), t)
  {
    hide BookOk;
    assert t in s.traceState && t in s.comments;
    assert Placed(s, t);
    var s' := Selected(s, t, c, a, at);
    assert s'.comments.Keys == s.comments.Keys;
    MoveKeeps(s, s', {}, {t}, t);
  }

  /** The window version changes only while the window is empty. */
  lemma Rewindow(s: State, hand: set<TraceId>, version: nat)
    requires Inv(s, hand) && s.windowIds == {}
    ensures Inv(s.(version := version), hand)
  {
    var s' := s.(version := version);
    forall x | x in s'.chains
      ensures BookOk(s', x)
    {
      assert BookOk(s, x);
    }
    forall x | x in s'.traceState && x !in hand
      ensures Placed(s', x)
    {
      SamePlace(s, s', x);
    }
  }

  // ---------------------------------------------------------- abort and queue

  /** Changing an attempt's own record or asking for an abort touches no place. */
  lemma Flag(s: State, s': State)
    requires Inv(s, {})
    requires s'.attempts.Keys == s.attempts.Keys && (s.abortRequested ==> s'.abortRequested)
    requires s' == s.(abortRequested := s'.abortRequested, attempts := s'.attempts, session := s'.session)
    ensures Inv(s', {})
  {
    forall x | x in s'.chains
      ensures BookOk(s', x)
    {
      assert BookOk(s, x);
    }
    forall x | x in s'.traceState
      ensures Placed(s', x)
    {
      assert Placed(s, x);
    }
  }

  /** The queued traces may be closed where they stand; none has another place. */
  lemma TakeQueue(s: State, ids: set<TraceId>)
    requires Inv(s, {}) && forall x | x in ids :: x in s.queue
    ensures Inv(s, ids)
    ensures forall x | x in ids :: x in s.traceState && Unreferenced(s.(queue := []), x)
  {
    forall x | x in ids
      ensures x in s.traceState && Unreferenced(s.(queue := []), x)
    {
      assert Placed(s, x);
    }
  }

  /** Once closed, the traces in hand leave the queue. */
  lemma LeaveQueue(s: State, ids: set<TraceId>, rest: seq<TraceId>)
    requires Inv(s, ids) && Ascending(rest) && |rest| <= |s.queue|
    requires forall x :: x in rest <==> x in s.queue && x !in ids
    requires forall x | x in ids :: x in s.traceState && Terminal(s.traceState[x]) && Unreferenced(s.(queue := []), x)
    ensures Inv(s.(queue := rest), {})
  {
    var s' := s.(queue := rest);
    forall x | x in s'.chains
      ensures BookOk(s', x)
    {
      assert BookOk(s, x);
    }
    forall x | x in s'.traceState
      ensures Placed(s', x)
    {
      if x !in ids {
        assert Placed(s, x);
      }
    }
  }

  /** After the expired comments are closed, the rest of the backlog is an invariant queue again. */
  lemma LeaveExpired(start: State, s: State, expired: set<TraceId>)
    requires Inv(start, {}) && forall x | x in expired :: x in start.queue
    requires s == start.(traceState := s.traceState, chains := s.chains) && Inv(s, expired)
    requires forall x | x in expired :: x in s.traceState && Terminal(s.traceState[x])
    ensures Inv(s.(queue := Without(start.queue, expired)), {})
    ensures forall x :: x in Without(start.queue, expired) <==> x in start.queue && x !in expired
  {
    hide Inv, Placed;
    QueueAscends(start);
    WithoutKeeps(start.queue, expired);
    TakeQueue(start, expired);
    LeaveQueue(s, expired, Without(start.queue, expired));
  }

  lemma OnlyBooks(s: State, s': State, ids: set<TraceId>)
    requires OnlyTraces(s, s', ids)
    ensures s' == s.(traceState := s'.traceState, chains := s'.chains, windowed := s'.windowed)
    ensures s'.traceState.Keys == s.traceState.Keys
  {
  }

  /** Closing the queued traces gives them no other place. */
  lemma StandUnqueued(s: State, s': State, ids: set<TraceId>)
    requires OnlyTraces(s, s', ids) && s'.windowed == s.windowed
    requires forall x | x in ids :: Unreferenced(s.(queue := []), x)
    ensures forall x | x in ids :: Unreferenced(s'.(queue := []), x)
  {
  }

  /** A queued comment has not left yet, so entering that it leaves rewrites nothing. */
  lemma QueuedHaveNotLeft(queue: seq<TraceId>, ids: set<TraceId>, books: Account, next: nat,
                          out: map<TraceId, Departure>)
    requires Ledger(queue, books.enqueued, books.left, books.promotions, next)
    requires out.Keys == ids && forall x | x in ids :: x in queue
    ensures BooksGrow(books, books.(left := books.left + out))
  {
  }

  lemma TimeOutsOf(expired: set<TraceId>, comments: map<TraceId, Comment>, now: int, timeout: int)
    requires expired <= comments.Keys
    ensures TimeOuts(expired, comments, now, timeout).Keys == expired
  {
  }

  lemma PromotionIsNew(queue: seq<TraceId>, books: Account, next: nat, d: Departure)
    requires Ledger(queue, books.enqueued, books.left, books.promotions, next) && queue != []
    ensures BooksGrow(books, books.(left := books.left[queue[0] := d], promotions := books.promotions + [queue[0]]))
  {
    assert queue[0] in queue;
  }

  lemma TailAscends(queue: seq<TraceId>)
    requires Ascending(queue) && queue != []
    ensures Ascending(queue[1..])
    ensures forall x :: x in queue[1..] <==> x in queue && x != queue[0]
  {
    assert queue == [queue[0]] + queue[1..];
  }

  /** The oldest queued trace is promoted: it leaves the queue in state NORMALIZED. */
  lemma Promote(s: State)
    requires Inv(s, {}) && s.queue != []
    ensures s.queue[0] in s.traceState && s.traceState[s.queue[0]] == Normalized && s.queue[0] in s.comments
    ensures Inv(s.(queue := s.queue[1..]), {s.queue[0]})
    ensures Unreferenced(s.(queue := s.queue[1..]), s.queue[0])
  {
    hide BookOk;
    var t := s.queue[0];
    assert t in s.queue;
    assert Placed(s, t);
    TailAscends(s.queue);
    MoveKeeps(s, s.(queue := s.queue[1..]), {}, {t}, t);
  }

  lemma Reanchor(s: State, t: TraceId, c: Comment)
    requires Inv(s, {t}) && Unreferenced(s, t)
    ensures t in s.comments && Inv(s.(comments := s.comments[t := c]), {t})
  {
    hide BookOk;
    assert t in s.traceState;
    assert s.comments[t := c].Keys == s.comments.Keys;
    MoveKeeps(s, s.(comments := s.comments[t := c]), {t}, {t}, t);
  }

  // ------------------------------------------------------------------ session

  /** A continuation whose attempt was aborted may throw as well. */
  lemma ParkStale(s: State, t: TraceId)
    requires Inv(s, {t}) && Unreferenced(s, t) && s.abortRequested
    requires t in s.traceState && Terminal(s.traceState[t]) && t in s.attempts
    ensures Inv(s.(conts := s.conts[t := AttemptThrown]), {})
  {
    hide BookOk;
    MoveKeeps(s, s.(conts := s.conts[t := AttemptThrown]), {t}, {}, t);
  }

  /** With no continuation left over, a new session may clear the abort request. */
  lemma Rearm(s: State, session: Option<nat>)
    requires Inv(s, {}) && s.conts == map[]
    ensures Inv(s.(session := session, abortRequested := false), {})
  {
    var s' := s.(session := session, abortRequested := false);
    forall x | x in s'.chains
      ensures BookOk(s', x)
    {
      assert BookOk(s, x);
    }
    forall x | x in s'.traceState
      ensures Placed(s', x)
    {
      assert Placed(s, x);
    }
  }

  /** When nothing is owned any more every trace is terminal, so the states may be forgotten. */
  lemma Forget(s: State)
    requires Inv(s, {}) && s.conts == map[] && s.queue == [] && s.windowIds == {} && s.attempt == None
    ensures Inv(s.(traceState := map[], windowed := {}), {})
  {
    var s' := s.(traceState := map[], windowed := {});
    forall x | x in s'.chains
      ensures BookOk(s', x)
    {
      assert BookOk(s, x);
      if x in s.traceState {
        assert Placed(s, x);
      }
    }
  }

  lemma TimerNeedsAttempt(s: State)
    requires Inv(s, {})
    ensures s.attempt == None ==> s.timer == None
  {
  }

  /** An armed timer belongs to the current attempt, whose trace is displayed. */
  lemma TimerIsCurrent(s: State)
    requires Inv(s, {}) && s.timer.Some?
    ensures s.attempt == s.timer && s.timer.value in s.traceState && s.traceState[s.timer.value] == Displayed
    ensures s.timer.value !in s.conts
  {
    assert s.timer.value in s.traceState;
    assert Placed(s, s.timer.value);
  }

  lemma QueueKnown(s: State)
    requires Inv(s, {})
    ensures forall t | t in s.queue :: t in s.traceState && t in s.comments
  {
  }

  lemma QueueAscends(s: State)
    requires Inv(s, {})
    ensures Ascending(s.queue)
  {
  }

  lemma EmptyIndex(s: State)
    requires Inv(s, {}) && s.windowIds == {}
    ensures s.windowed == {}
  {
  }
}
