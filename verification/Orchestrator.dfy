/**
 * The suggestion orchestrator. Every public method is one run-to-suspension
 * segment; between two of them any other may run, in any order.
 */
module Orchestration {
  import opened Wrappers
  import opened Trace
  import opened Pipeline
  import opened PipelineMoves
  import opened PipelineFrames
  import opened Windows
  import Service = ServiceStates

  const T0_FRESHNESS_BUDGET_MS := 10_000
  const SELECTED_BUDGET_MS := 10_000
  const SEEN_SET_MAX: nat := 100_000

  datatype Queueing = Queueing(enabled: bool, timeoutMs: int)

  /**
   * How a provider call ends. An answer comes with what the model decided of the
   * comment, and whether the validator accepts its form and content.
   */
  datatype ProviderOutcome = Rejected | Aborted | Errored | Answered(declined: bool, valid: bool)

  datatype ShowOutcome = ShowRejected | Refused | Shown(hookThrows: bool)

  function Min(a: int, b: int): (m: int)
    ensures m <= a && m <= b && (m == a || m == b)
  {
    if a < b then a else b
  }

  /** A step of the attempt has thrown, and its catch handler is due. */
  ghost predicate HasThrown(s: State, t: TraceId) {
    t in s.conts && s.conts[t] == AttemptThrown
  }

  /** What becomes of a generated reply: declined, refused for its form or content, or made ready. */
  ghost predicate Judged(s: State, s': State, t: TraceId, declined: bool, valid: bool) {
    && t in s.chains && t in s'.chains
    && (|| (HasThrown(s', t) && s'.chains[t] == s.chains[t])
        || (if declined then s'.chains[t] == s.chains[t] + [Entry(Some(Generated), Discarded, LlmSemanticDiscard)]
            else if !valid then s'.chains[t] == s.chains[t] + [Entry(Some(Generated), Discarded, OutputInvalid)]
            else s.chains[t] + [Entry(Some(Generated), DisplayReady, OutputValidated)] <= s'.chains[t]))
  }

  /** What the provider's answer adds to the rows of an attempt that may go on. */
  ghost predicate Answer(s: State, s': State, t: TraceId, outcome: ProviderOutcome) {
    && t in s.chains && t in s'.chains
    && match outcome
       case Rejected => s'.chains[t] == s.chains[t]
       case Aborted => s'.chains[t] == s.chains[t] + [Entry(Some(LlmPending), Discarded, UserStopped)]
       case Errored =>
         || (HasThrown(s', t) && s'.chains[t] == s.chains[t])
         || s'.chains[t] == s.chains[t] + [Entry(Some(LlmPending), TraceState.Failed, ProviderFailed)]
       case Answered(declined, valid) =>
         var generated := s.chains[t] + [Entry(Some(LlmPending), Generated, ProviderSucceeded)];
         Judged(s.(chains := s.chains[t := generated]), s', t, declined, valid)
  }

  lemma JudgedSince(a: State, b: State, c: State, t: TraceId, declined: bool, valid: bool)
    requires t in a.chains
    ensures Judged(a, c, t, declined, valid) ==> Judged(b.(chains := b.chains[t := a.chains[t]]), c, t, declined, valid)
  {
  }

  lemma AnswerSince(a: State, b: State, c: State, t: TraceId, outcome: ProviderOutcome)
    requires b.chains == a.chains
    ensures Answer(b, c, t, outcome) ==> Answer(a, c, t, outcome)
  {
  }

  class Orchestrator {
    const window: SuggestionWindow
    const machine: Service.ServiceStateMachine
    var session: Option<nat>
    var seen: seq<nat>
    var attempt: Option<TraceId>
    var abortRequested: bool
    var displayTimer: Option<TraceId>
    var frozenQueueing: Option<Queueing>
    var pendingQueue: seq<TraceId>
    var traceState: map<TraceId, TraceState>
    var windowedComments: set<TraceId>
    /** Objects shared by reference, and the suspended continuations. */
    var comments: map<TraceId, Comment>
    var attempts: map<TraceId, Attempt>
    var conts: map<TraceId, Stage>
    /** The audit store as seen from here: its rows, its UNIQUE key, its refusals. */
    var audited: map<TraceId, seq<Entry>>
    var messages: set<(nat, nat)>
    var refused: bool
    var nextTrace: nat
    var clock: int
    ghost var enqueued: set<TraceId>
    ghost var left: map<TraceId, Departure>
    ghost var promotions: seq<TraceId>

    ghost function View(): State
      reads this, window
    {
      State(session, attempt, abortRequested, displayTimer, pendingQueue, traceState, windowedComments,
            Ids(window.candidates), window.windowVersion, conts, audited, comments, attempts, nextTrace, refused, clock)
    }

    ghost predicate Good(hand: set<TraceId>)
      reads this, window, machine
    {
      && window.Valid() && machine.Valid()
      && Inv(View(), hand)
      && Ledger(pendingQueue, enqueued, left, promotions, nextTrace)
      && Agrees()
    }

    /** The current attempt and its comment are of one session and window and have one deadline. */
    ghost predicate Agrees()
      reads this`attempt, this`attempts, this`comments, this`abortRequested
    {
      attempt.Some? && attempt.value in attempts && attempt.value in comments ==>
        var a, c := attempts[attempt.value], comments[attempt.value];
        && a.sessionId == c.sessionId && a.windowVersion == c.windowVersion && a.deadline == c.deadline
        && (!abortRequested ==> !a.aborted && a.cancelReason == UserStopped)
    }

    ghost function Books(): Account
      reads this
    {
      Account(enqueued, left, promotions)
    }

    /** The invariant between any two steps. */
    ghost predicate Stable()
      reads this, window, machine
    {
      Good({}) && (abortRequested ==> attempt == None)
    }

    /** The running step has one trace in hand that nothing else refers to. */
    ghost predicate Holding(t: TraceId)
      reads this, window, machine
    {
      && Good({t}) && Unreferenced(View(), t) && t in traceState && t in comments
      && (abortRequested ==> attempt == None)
    }

    /** The running step has the current attempt's trace in hand. */
    ghost predicate Attempting(t: TraceId)
      reads this, window, machine
    {
      && Good({t}) && attempt == Some(t) && !abortRequested && displayTimer == None
      && Unreferenced(View().(attempt := None), t) && t in traceState && t in comments && t in attempts
    }

    /** A resumed continuation of an attempt, current or already aborted. */
    ghost predicate Resumed(t: TraceId)
      reads this, window, machine
    {
      && Good({t}) && Unreferenced(View().(attempt := None), t) && displayTimer != Some(t)
      && t in traceState && t in comments && t in attempts
      && if attempt == Some(t) then !abortRequested && displayTimer == None
         else abortRequested && attempt == None && Terminal(traceState[t])
    }

    constructor (machine: Service.ServiceStateMachine, windowMaxAgeMs: int, candidateMaxCount: nat)
      requires machine.Valid()
      ensures Stable() && fresh(window) && this.machine == machine
      ensures session == None && audited == map[] && conts == map[]
    {
      this.machine := machine;
      window := new SuggestionWindow(windowMaxAgeMs, candidateMaxCount);
      session, seen, attempt, abortRequested, displayTimer := None, [], None, false, None;
      frozenQueueing, pendingQueue, traceState, windowedComments := None, [], map[], {};
      comments, attempts, conts, audited, messages := map[], map[], map[], map[], {};
      refused, nextTrace, clock := false, 0, 0;
      enqueued, left, promotions := {}, map[], [];
    }

    /** How long a comment may wait before its attempt starts. */
    function PreAttemptBudget(): (ms: int)
      ensures ms <= T0_FRESHNESS_BUDGET_MS && ms <= window.maxAgeMs
      ensures ms == T0_FRESHNESS_BUDGET_MS || ms == window.maxAgeMs
    {
      Min(T0_FRESHNESS_BUDGET_MS, window.maxAgeMs)
    }

    // ------------------------------------------------- clock and opaque choices

    /** A later reading of the monotonic clock. */
    method Now() returns (now: int)
      modifies this`clock
      ensures now == clock && old(clock) <= now
      ensures View() == old(View()).(clock := clock)
    {
      var elapsed: nat :| elapsed >= 0;
      clock := clock + elapsed;
      now := clock;
    }

    /** The verdict of a component outside this model. */
    static method Verdict() returns (b: bool) {
      b := *;
    }

    // ----------------------------------------------------------------- auditing

    /** Writes one transition; the store accepts any pair of states in the table. */
    method Transition(t: TraceId, from: Option<TraceState>, to: TraceState, reason: Reason)
      modifies this`audited, this`traceState, this`refused
      ensures View() ==
        if Allowed(from, to) then Written(old(View()), t, from, to, reason) else old(View()).(refused := true)
    {
      hide Ids, Successors;
      if to !in Successors(from) {
        refused := true;
        return;
      }
      Write(t, from, to, reason);
    }

    /** The accepted row is stored, and the state it leads to remembered. */
    method Write(t: TraceId, from: Option<TraceState>, to: TraceState, reason: Reason)
      modifies this`audited, this`traceState
      ensures View() == Written(old(View()), t, from, to, reason)
    {
      hide Ids;
      var chain := if t in audited then audited[t] else [];
      audited := audited[t := chain + [Entry(from, to, reason)]];
      traceState := traceState[t := to];
    }

    /** A transition from the state the trace is really in keeps every invariant. */
    method Advance(t: TraceId, from: TraceState, to: TraceState, reason: Reason, ghost hand: set<TraceId>)
      requires Inv(View(), hand) && t in hand && t in traceState && traceState[t] == from
      requires Allowed(Some(from), to) && Fits(to, reason)
      modifies this`audited, this`traceState, this`refused
      ensures Inv(View(), hand)
      ensures OnlyTrace(old(View()), View(), t) && t in traceState && traceState[t] == to
      ensures t in old(audited) && audited[t] == old(audited)[t] + [Entry(Some(from), to, reason)]
      ensures FinishedKept(old(View()), View())
    {
      hide Inv, Ids, IsPath;
      HandKnown(View(), hand, t);
      WrittenKeeps(View(), hand, t, to, reason);
      Transition(t, Some(from), to, reason);
    }

    /** The attempt's own next transition. */
    method AdvanceAttempt(t: TraceId, from: TraceState, to: TraceState, reason: Reason)
      requires Attempting(t) && traceState[t] == from && Allowed(Some(from), to)
      requires Fits(to, reason) && to != Discarded
      modifies this`audited, this`traceState, this`refused
      ensures Attempting(t) && traceState[t] == to
      ensures t in old(audited) && t in audited && audited[t] == old(audited)[t] + [Entry(Some(from), to, reason)]
      ensures Turn(old(View()), View(), {t}) && Own(old(View()), View(), t)
    {
      hide Inv, Ledger, Ids, DistinctIds, FinishedKept, Turn, Agrees;
      ghost var start := View();
      Advance(t, from, to, reason, {t});
      TurnOfTrace(start, View(), t);
      OwnRow(start, View(), t, Entry(Some(from), to, reason));
    }

    /** The next transition of a trace nothing else refers to. */
    method AdvanceHeld(t: TraceId, from: TraceState, to: TraceState, reason: Reason)
      requires Holding(t) && traceState[t] == from && Allowed(Some(from), to)
      requires Fits(to, reason) && !OfStaleness(reason)
      modifies this`audited, this`traceState, this`refused
      ensures Holding(t) && traceState[t] == to
      ensures t in old(audited) && t in audited && audited[t] == old(audited)[t] + [Entry(Some(from), to, reason)]
      ensures Turn(old(View()), View(), {t}) && Own(old(View()), View(), t)
    {
      hide Inv, Ledger, Ids, DistinctIds, FinishedKept, Turn, Agrees;
      ghost var start := View();
      Advance(t, from, to, reason, {t});
      TurnOfTrace(start, View(), t);
      OwnRow(start, View(), t, Entry(Some(from), to, reason));
    }

    /** A finished trace that nothing refers to is let go. */
    method LetGo(t: TraceId)
      requires Holding(t) && Terminal(traceState[t])
      ensures Stable() && t !in conts
    {
      hide Inv, Ledger, Ids, DistinctIds, Agrees;
      DropLoose(View(), t);
    }

    /** Closes a trace that must first pass through one more state. */
    method CloseThrough(t: TraceId, from: TraceState, to: TraceState, how: Reason, reason: Reason,
                        ghost hand: set<TraceId>)
      requires Inv(View(), hand) && t in hand && t in traceState && traceState[t] == from
      requires Detour(from) == Some(to) && ReasonFor(to) == Some(how)
      modifies this`audited, this`traceState, this`refused
      ensures Inv(View(), hand)
      ensures OnlyTrace(old(View()), View(), t)
      ensures ClosedWith(old(View()), View(), t, reason) && traceState[t] == Discarded
      ensures FinishedKept(old(View()), View())
    {
      hide Inv, Ids, IsPath, FinishedKept, ClosedWith, OnlyTrace;
      HandKnown(View(), hand, t);
      ghost var before := View();
      Advance(t, from, to, how, hand);
      ghost var between := View();
      Advance(t, to, Discarded, reason, hand);
      ClosedInTwo(before, between, View(), t, how, reason);
    }

    /** Closes a trace that may be discarded where it stands. */
    method CloseHere(t: TraceId, from: TraceState, reason: Reason, ghost hand: set<TraceId>)
      requires Inv(View(), hand) && t in hand && t in traceState && traceState[t] == from
      requires from in {Normalized, Retrieving, LlmPending, Generated, DisplayReady}
      modifies this`audited, this`traceState, this`refused
      ensures Inv(View(), hand)
      ensures OnlyTrace(old(View()), View(), t)
      ensures ClosedWith(old(View()), View(), t, reason) && traceState[t] == Discarded
      ensures FinishedKept(old(View()), View())
    {
      hide Inv, Ids, IsPath, FinishedKept, ClosedWith;
      HandKnown(View(), hand, t);
      ghost var before := View();
      Advance(t, from, Discarded, reason, hand);
      ClosedInOne(before, View(), t, reason);
    }

    /** Closes a displayed trace: it is hidden, whatever the reason. */
    method CloseShown(t: TraceId, ghost reason: Reason, ghost hand: set<TraceId>)
      requires Inv(View(), hand) && t in hand && t in traceState && traceState[t] == Displayed
      modifies this`audited, this`traceState, this`refused
      ensures Inv(View(), hand)
      ensures OnlyTrace(old(View()), View(), t)
      ensures ClosedWith(old(View()), View(), t, reason) && traceState[t] == Hidden
      ensures FinishedKept(old(View()), View())
    {
      hide Inv, Ids, IsPath, FinishedKept, ClosedWith;
      HandKnown(View(), hand, t);
      ghost var before := View();
      Advance(t, Displayed, Hidden, DisplayDurationElapsed, hand);
      ClosedByHiding(before, View(), t, reason);
    }

    /** Ends a trace from whatever state it was last written in. */
    method CloseChain(t: TraceId, reason: Reason, ghost hand: set<TraceId>)
      requires Inv(View(), hand) && t in hand
      modifies this`audited, this`traceState, this`refused
      ensures Inv(View(), hand)
      ensures OnlyTrace(old(View()), View(), t)
      ensures ClosedWith(old(View()), View(), t, reason) && Terminal(traceState[t])
      ensures FinishedKept(old(View()), View())
    {
      hide Inv, Ids, IsPath, FinishedKept, ClosedWith, OnlyTrace, Detour, ReasonFor;
      Detours();
      HandKnown(View(), hand, t);
      var last := if t in traceState then traceState[t] else Received;
      match last {
        case Received =>
          CloseThrough(t, Received, Normalized, NormalizationOk, reason, hand);
        case Normalized | Retrieving | LlmPending | Generated | DisplayReady =>
          CloseHere(t, last, reason, hand);
        case Routed =>
          CloseThrough(t, Routed, Retrieving, RetrievalStarted, reason, hand);
        case DirectReady =>
          CloseThrough(t, DirectReady, DisplayReady, OutputValidated, reason, hand);
        case PromptRendered =>
          CloseThrough(t, PromptRendered, LlmPending, ProviderRequested, reason, hand);
        case Displayed =>
          CloseShown(t, reason, hand);
        case Filtered | Hidden | Discarded | Failed =>
          ClosedAlready(View(), t, reason);
      }
    }

    /** Closes every candidate the window reported as evicted. */
    method Evict(ids: seq<TraceId>, ghost base: set<TraceId>, ghost gone: set<TraceId>)
      requires Inv(View(), base + gone) && Evictable(View(), gone) && base !! gone
      requires NoRepeats(ids) && gone == Elements(ids)
      modifies this`audited, this`traceState, this`refused, this`windowedComments
      ensures Inv(View(), base)
      ensures OnlyTraces(old(View()), View(), gone) && AllClosed(old(View()), View(), gone, Reason.WindowEvicted)
      ensures forall t | t !in gone :: t in windowedComments <==> t in old(windowedComments)
      ensures FinishedKept(old(View()), View())
    {
      hide Inv, Evictable, FinishedKept, OnlyTraces, AllClosed, ClosedWith, IsPath;
      ghost var start := View();
      ghost var waiting, done := gone, {};
      NoneClosed(start, Reason.WindowEvicted);
      FinishedSame(start, start);
      for i := 0 to |ids|
        invariant Inv(View(), base + waiting) && Evictable(View(), waiting)
        invariant forall t :: t in waiting <==> t in ids[i..]
        invariant done !! waiting && done + waiting == gone
        invariant FinishedKept(start, View())
        invariant OnlyTraces(start, View(), done) && AllClosed(start, View(), done, Reason.WindowEvicted)
        invariant forall t | t !in gone :: t in windowedComments <==> t in old(windowedComments)
      {
        assert ids[i..] == [ids[i]] + ids[i + 1..];
        EvictableMember(View(), waiting, ids[i]);
        HandKnown(View(), base + waiting, ids[i]);
        if ids[i] in windowedComments {
          EvictOne(start, base, waiting, done, ids[i]);
          waiting, done := waiting - {ids[i]}, done + {ids[i]};
        }
      }
      assert waiting == {};
      assert base + waiting == base && done == gone;
    }

    /** Closes one evicted candidate and takes it off the index. */
    method EvictOne(ghost start: State, ghost base: set<TraceId>, ghost waiting: set<TraceId>,
                    ghost done: set<TraceId>, id: TraceId)
      requires Inv(View(), base + waiting) && Evictable(View(), waiting) && base !! waiting && id in waiting
      requires id in traceState && id in audited
      requires FinishedKept(start, View())
      requires OnlyTraces(start, View(), done) && AllClosed(start, View(), done, Reason.WindowEvicted)
      modifies this`audited, this`traceState, this`refused, this`windowedComments
      ensures Inv(View(), base + (waiting - {id})) && Evictable(View(), waiting - {id})
      ensures FinishedKept(start, View())
      ensures OnlyTraces(start, View(), done + {id}) && AllClosed(start, View(), done + {id}, Reason.WindowEvicted)
      ensures windowedComments == old(windowedComments) - {id}
    {
      hide Inv, Evictable, FinishedKept, OnlyTraces, AllClosed, ClosedWith, Ids;
      ghost var before := View();
      CloseChain(id, Reason.WindowEvicted, base + waiting);
      ghost var closed := View();
      EvictableAfterClose(before, closed, waiting, id);
      DropEvicted(closed, base, waiting, id);
      windowedComments := windowedComments - {id};
      CloseOneMore(start, before, closed, View(), done, id, Reason.WindowEvicted);
      FinishedTrans(start, before, closed);
      FinishedSame(closed, View());
      FinishedTrans(start, closed, View());
    }

    /** Closes what the window has just dropped: `before` is the view before it did. */
    method CloseDropped(evicted: seq<TraceId>, ghost before: State, ghost hand: set<TraceId>)
      requires Inv(before, hand) && Splits(before.windowIds, Ids(window.candidates), evicted)
      requires View() == before.(windowIds := Ids(window.candidates))
      requires forall t | t in hand :: t !in before.windowIds
      modifies this`audited, this`traceState, this`refused, this`windowedComments
      ensures Inv(View(), hand)
      ensures OnlyTraces(old(View()), View(), before.windowIds - Ids(window.candidates))
      ensures AllClosed(before, View(), before.windowIds - Ids(window.candidates), Reason.WindowEvicted)
      ensures forall t | t !in before.windowIds :: t in windowedComments <==> t in old(windowedComments)
      ensures Turn(before, View(), {})
    {
      hide Inv, Evictable, FinishedKept, Ids, DistinctIds, OnlyTraces, AllClosed, Turn;
      ghost var kept := Ids(window.candidates);
      ghost var gone := Elements(evicted);
      assert before.windowIds == kept + gone;
      assert gone == before.windowIds - kept;
      ghost var dropped := View();
      FinishedSame(before, dropped);
      TakeEvicted(before, hand, kept, gone);
      Evict(evicted, hand, gone);
      AllClosedSince(before, dropped, View(), gone, Reason.WindowEvicted);
      TurnOfEviction(before, dropped, View());
    }

    // ----------------------------------------------------------------- activity

    /** Sets the activity; an illegal change would raise the transition error. */
    method Activate(to: Service.Activity)
      requires machine.Valid()
      modifies machine`activity, this`refused
      ensures machine.Valid()
      ensures Service.ActivityLegal(machine.lifecycle, old(machine.activity), to) ==>
        View() == old(View()) && machine.activity == to
    {
      var r := machine.SetActivity(to);
      if r.Err? {
        refused := true;
      }
    }

    method EnterRetrieving()
      requires machine.Valid()
      modifies machine`activity, this`refused
      ensures machine.Valid() && View() == old(View())
      ensures machine.activity ==
        if old(machine.activity) == Service.Listening then Service.Retrieving else old(machine.activity)
    {
      if machine.activity == Service.Listening {
        Activate(Service.Retrieving);
      }
    }

    method EnterGenerating()
      requires machine.Valid()
      modifies machine`activity, this`refused
      ensures machine.Valid() && View() == old(View())
      ensures machine.activity == if old(machine.activity) in {Service.Listening, Service.Retrieving}
                                  then Service.Generating else old(machine.activity)
    {
      EnterRetrieving();
      if machine.activity == Service.Retrieving {
        Activate(Service.Generating);
      }
    }

    method EnterDisplaying()
      requires machine.Valid()
      modifies machine`activity, this`refused
      ensures machine.Valid() && View() == old(View())
      ensures machine.activity ==
        if machine.lifecycle == Service.Running then Service.Displaying else old(machine.activity)
    {
      EnterRetrieving();
      if machine.activity == Service.Retrieving || machine.activity == Service.Generating {
        Activate(Service.Displaying);
      }
    }

    // ---------------------------------------------------------------- freshness

    /** Why a comment must not go on, if it must not. */
    method CommentCancelled(t: TraceId) returns (verdict: Option<Reason>)
      requires Holding(t) || Resumed(t)
      modifies this`clock
      ensures verdict == CommentVerdict(View(), t)
      ensures (old(Holding(t)) ==> Holding(t)) && (old(Resumed(t)) ==> Resumed(t))
      ensures verdict == None <==> Fresh(View(), t)
      ensures Turn(old(View()), View(), {t}) && Own(old(View()), View(), t)
      ensures View() == old(View()).(clock := clock) && old(clock) <= clock
      ensures t in audited
    {
      hide Inv, Ledger, Ids, DistinctIds, Turn, Own, Agrees;
      ghost var start := View();
      TimePassed(start, t);
      if abortRequested {
        return Some(UserStopped);
      }
      if session != Some(comments[t].sessionId) {
        return Some(StaleSession);
      }
      if comments[t].windowVersion != window.windowVersion {
        return Some(StaleWindow);
      }
      var now := Now();
      TimePassed(start, t);
      verdict := if now > comments[t].deadline then Some(DeadlineExceeded) else None;
    }

    /** Nothing but the time has changed, so nothing of `t` has. */
    lemma TimePassed(before: State, t: TraceId)
      requires Inv(before, {t}) && t !in before.windowIds && t in before.comments
      requires View() == before.(clock := View().clock) && before.clock <= clock
      ensures Inv(View(), {t}) && Turn(before, View(), {t}) && Own(before, View(), t) && t in audited
    {
      hide Inv, Turn, IsPath;
      HandKnown(before, {t}, t);
      Later(before, View(), {t});
      TurnOfTick(before, View(), {t});
      OwnSame(before, View(), t);
    }

    lemma StandsStill(t: TraceId)
      requires Holding(t) || Resumed(t)
      ensures Turn(View(), View(), {t}) && Own(View(), View(), t) && t in audited
    {
      hide Inv, Ledger, Ids, DistinctIds, Turn, Own;
      TimePassed(View(), t);
    }

    /** The record of the current attempt says what its comment says, and was not aborted. */
    lemma AttemptKnown(t: TraceId)
      requires Attempting(t)
      ensures
        var a, c := attempts[t], comments[t];
        && a.sessionId == c.sessionId && a.windowVersion == c.windowVersion && a.deadline == c.deadline
        && !a.aborted && a.cancelReason == UserStopped
    {
    }

    lemma NothingRuns(t: TraceId)
      requires Holding(t)
      ensures t !in conts
    {
    }

    /** Between steps a finished trace without the mutex has nothing left to run unless an abort was asked for. */
    lemma NothingLeft(t: TraceId)
      requires Stable() && t in traceState && Terminal(traceState[t]) && attempt != Some(t) && !abortRequested
      ensures t !in conts
    {
      hide Inv, Ledger, Ids, DistinctIds;
      FinishedHasNoCont(View(), t);
    }

    /** The attempt of `t` is of this session and window, was not aborted and is in time. */
    ghost predicate Current(t: TraceId, at: int)
      requires t in attempts
      reads this`attempts, this`abortRequested, this`session, window`windowVersion
    {
      && !attempts[t].aborted && !abortRequested && session == Some(attempts[t].sessionId)
      && attempts[t].windowVersion == window.windowVersion && at <= attempts[t].deadline
    }

    /** Why an attempt must not go on, if it must not. */
    method AttemptFreshness(t: TraceId) returns (verdict: Option<Reason>)
      requires Resumed(t)
      modifies this`clock
      ensures verdict == AttemptVerdict(View(), t)
      ensures Resumed(t) && (verdict == None ==> Attempting(t))
      ensures verdict == None <==> Fresh(View(), t)
      ensures Turn(old(View()), View(), {t}) && Own(old(View()), View(), t)
      ensures View() == old(View()).(clock := clock) && old(clock) <= clock
      ensures t in audited
    {
      hide Inv, Ledger, Ids, DistinctIds, Turn, Own;
      ghost var start := View();
      TimePassed(start, t);
      if attempts[t].aborted || abortRequested {
        return Some(attempts[t].cancelReason);
      }
      if session != Some(attempts[t].sessionId) {
        return Some(StaleSession);
      }
      if attempts[t].windowVersion != window.windowVersion {
        return Some(StaleWindow);
      }
      var now := Now();
      TimePassed(start, t);
      verdict := if now > attempts[t].deadline then Some(DeadlineExceeded) else None;
    }

    /**
     * The last step of the output validator, which compares the attempt with the
     * session as it stands. It takes a session that is gone for the attempt's own.
     */
    method OutputFreshness(t: TraceId) returns (verdict: Option<Reason>)
      requires Attempting(t)
      modifies this`clock
      ensures Attempting(t)
      ensures verdict.Some? ==> OfStaleness(verdict.value) && !Fresh(View(), t)
      ensures verdict == Some(StaleSession) <==> session.Some? && session.value != attempts[t].sessionId
      ensures verdict == Some(StaleWindow) <==>
        (session.Some? ==> session.value == attempts[t].sessionId) && attempts[t].windowVersion != window.windowVersion
      ensures verdict == None ==> clock <= attempts[t].deadline
      ensures verdict == Some(DeadlineExceeded) ==> clock > attempts[t].deadline
      ensures Turn(old(View()), View(), {t}) && Own(old(View()), View(), t)
      ensures View() == old(View()).(clock := clock) && old(clock) <= clock
    {
      hide Inv, Ledger, Ids, DistinctIds, Turn, Own;
      ghost var start := View();
      TimePassed(start, t);
      if attempts[t].aborted {
        return Some(UserStopped);
      }
      if session.Some? && session.value != attempts[t].sessionId {
        return Some(StaleSession);
      }
      if attempts[t].windowVersion != window.windowVersion {
        return Some(StaleWindow);
      }
      var now := Now();
      TimePassed(start, t);
      verdict := if now > attempts[t].deadline then Some(DeadlineExceeded) else None;
    }

    // ------------------------------------------------------------------ attempt

    /** The trace is finished, or its continuation waits at one of these stages. */
    ghost predicate FinishedOrAt(t: TraceId, stages: set<Stage>)
      reads this
    {
      (t in traceState && Terminal(traceState[t])) || (t in conts && conts[t] in stages)
    }

    /** Suspends the current attempt, or records that its promise was rejected. */
    method Suspend(t: TraceId, stage: Stage)
      requires Attempting(t) && !OfSearch(stage) && StageState(stage, traceState[t])
      modifies this`conts
      ensures Stable() && conts == old(conts)[t := stage]
      ensures Turn(old(View()), View(), {t}) && Own(old(View()), View(), t)
    {
      hide Inv, Ledger, Ids, DistinctIds, Turn, Agrees, IsPath;
      ghost var start := View();
      ParkAttempt(View(), t, stage);
      conts := conts[t := stage];
      TurnOfPark(start, View(), t, stage);
      HandKnown(start, {t}, t);
      OwnSame(start, View(), t);
    }

    /** Suspends a comment's retrieval, or records that its promise was rejected. */
    method SuspendSearch(t: TraceId, stage: Stage)
      requires Holding(t) && OfSearch(stage) && traceState[t] == TraceState.Retrieving
      modifies this`conts
      ensures Stable() && conts == old(conts)[t := stage]
      ensures Progress(old(View()), View(), {t}) && Own(old(View()), View(), t)
      ensures stage == SearchThrown ==> Turn(old(View()), View(), {t})
    {
      hide Inv, Ledger, Ids, DistinctIds, Turn, Progress, Agrees, IsPath;
      ghost var start := View();
      ParkSearch(View(), t, stage);
      conts := conts[t := stage];
      ProgressOfPark(start, View(), t, stage);
      HandKnown(start, {t}, t);
      OwnSame(start, View(), t);
      if stage == SearchThrown {
        TurnOfPark(start, View(), t, stage);
      }
    }

    /** Releases the attempt mutex and, while the service runs, starts the next attempt. */
    method ClearAttempt(t: TraceId)
      requires Good({t}) && t in traceState && Terminal(traceState[t])
      requires t !in pendingQueue && t !in Ids(window.candidates) && t !in windowedComments
      requires attempt == None || attempt == Some(t)
      requires t in conts ==> abortRequested && !OfSearch(conts[t])
      modifies this`attempt, this`displayTimer, this`conts, this`traceState, this`audited, this`refused,
        this`windowedComments, this`comments, this`attempts, this`clock, window`candidates, machine`activity
      ensures Stable()
      ensures old(abortRequested) ==> View() == old(View()).(attempt := None, timer := None) && unchanged(window)
      ensures old(window.candidates) == [] ==> window.candidates == [] && attempt == None
      ensures Turn(old(View()), View(), {t})
      ensures machine.lifecycle == Service.Running && !abortRequested ==> attempt.Some? || window.candidates == []
      ensures old(clock) <= clock
      ensures attempt != Some(t) && Aside(old(View()), View(), t)
      decreases |window.candidates|, 1
    {
      hide Inv, Ledger, Ids, DistinctIds, Turn, Agrees;
      ghost var start := View();
      FreeMutex(t);
      ghost var released := View();
      if machine.lifecycle == Service.Running {
        Activate(Service.Listening);
        MaybeStartAttempt();
      }
      TurnOfRelease(start, released, View(), t);
    }

    /** The mutex and the display timer are free. */
    method FreeMutex(t: TraceId)
      requires Good({t}) && t in traceState && Terminal(traceState[t])
      requires t !in pendingQueue && t !in Ids(window.candidates) && t !in windowedComments
      requires attempt == None || attempt == Some(t)
      requires t in conts ==> abortRequested && !OfSearch(conts[t])
      modifies this`attempt, this`displayTimer
      ensures Stable() && View() == old(View()).(attempt := None, timer := None) && t in comments
    {
      hide Inv, Ledger, Ids, DistinctIds, IsPath;
      HandKnown(View(), {t}, t);
      ReleaseAttempt(View(), t);
      displayTimer := None;
      attempt := None;
    }

    /** Returns to LISTENING after a candidate failed before its attempt. */
    method RestoreListening()
      requires Stable()
      modifies this`attempt, this`displayTimer, this`conts, this`traceState, this`audited, this`refused,
        this`windowedComments, this`comments, this`attempts, this`clock, window`candidates, machine`activity
      ensures Stable()
      ensures old(abortRequested || attempt.Some?) ==> View() == old(View()) && unchanged(window)
      ensures Turn(old(View()), View(), {})
      ensures machine.lifecycle == Service.Running && !abortRequested ==> attempt.Some? || window.candidates == []
      ensures old(clock) <= clock
      ensures old(window.candidates) == [] ==> window.candidates == [] && attempt == old(attempt)
    {
      hide Inv, Ledger, Ids, DistinctIds, Turn;
      TurnSame(View(), View(), {});
      if machine.lifecycle == Service.Running {
        Activate(Service.Listening);
        MaybeStartAttempt();
      }
    }

    /** Starts an attempt for the best candidate when the mutex is free. */
    method MaybeStartAttempt()
      requires Stable()
      modifies this`attempt, this`displayTimer, this`conts, this`traceState, this`audited, this`refused,
        this`windowedComments, this`comments, this`attempts, this`clock, window`candidates, machine`activity
      ensures Stable()
      ensures old(abortRequested || attempt.Some? || machine.activity == Service.Displaying) ==>
        View() == old(View()) && unchanged(window)
      ensures old(window.candidates) == [] ==> window.candidates == [] && attempt == old(attempt)
      ensures Turn(old(View()), View(), {})
      ensures machine.lifecycle == Service.Running && !abortRequested && old(machine.activity) != Service.Displaying ==>
        attempt.Some? || window.candidates == []
      ensures old(clock) <= clock
      decreases |window.candidates|, 0
    {
      hide Inv, Ledger, DistinctIds, Turn;
      ghost var start := View();
      TurnSame(start, start, {});
      if attempt.Some? {
        return;
      }
      if abortRequested {
        return;
      }
      if machine.activity == Service.Displaying {
        return;
      }
      var best := PickBest();
      if best == None {
        return;
      }
      var t := best.value.traceId;
      ghost var ready := View();
      CandidateKnown(ready, t);
      window.RemoveSelected(t);
      windowedComments := windowedComments - {t};
      Start(t, ready);
      TurnTrans(start, ready, View(), {});
    }

    /** Evicts the expired candidates and picks the first of greatest priority among the others. */
    method PickBest() returns (best: Option<Candidate>)
      requires Stable() && attempt == None && !abortRequested
      modifies this`traceState, this`audited, this`refused, this`windowedComments, this`clock, window`candidates
      ensures Stable() && |window.candidates| <= |old(window.candidates)|
      ensures best == None <==> window.candidates == []
      ensures best.Some? ==> best.value.traceId in Ids(window.candidates)
      ensures best.Some? ==>
        exists k | 0 <= k < |window.candidates| :: BestAt(window.candidates, k) && window.candidates[k] == best.value
      ensures forall c :: c in window.candidates <==>
        c in old(window.candidates) && clock - c.received <= window.maxAgeMs
      ensures Turn(old(View()), View(), {})
      ensures old(clock) <= clock
      ensures window.candidates == Unexpired(old(window.candidates), clock, window.maxAgeMs)
    {
      hide Inv, Ledger, DistinctIds, Splits, Turn, OnlyTraces, AllClosed, Unexpired, Ids, Agrees;
      ghost var start := View();
      var now := Now();
      ghost var before := View();
      Later(start, before, {});
      var evicted;
      best, evicted := window.SelectBest(now);
      CloseDropped(evicted, before, {});
      TurnOfTick(start, before, {});
      TurnTrans(start, before, View(), {});
    }

    /** The earliest of a comment's freshness, the attempt's own budget and the window's age limit. */
    method AttemptDeadline(received: int) returns (deadline: int)
      modifies this`clock
      ensures View() == old(View()).(clock := clock) && old(clock) <= clock
      ensures deadline <= received + T0_FRESHNESS_BUDGET_MS && deadline <= clock + SELECTED_BUDGET_MS
      ensures deadline <= received + window.maxAgeMs
      ensures deadline in {received + T0_FRESHNESS_BUDGET_MS, clock + SELECTED_BUDGET_MS, received + window.maxAgeMs}
    {
      var now := Now();
      deadline := Min(Min(received + T0_FRESHNESS_BUDGET_MS, now + SELECTED_BUDGET_MS), received + window.maxAgeMs);
    }

    /** The selected candidate becomes the attempt, with the deadline of its comment. */
    method Elect(t: TraceId, ghost ready: State)
      requires window.Valid() && machine.Valid() && Ledger(pendingQueue, enqueued, left, promotions, nextTrace)
      requires Inv(ready, {}) && t in ready.windowIds && ready.attempt == None && !ready.abortRequested
      requires View() == ready.(windowIds := ready.windowIds - {t}, windowed := ready.windowed - {t})
      modifies this`attempt, this`comments, this`attempts, this`clock
      ensures Attempting(t) && traceState[t] == Retrieving
      ensures t in old(comments)
      ensures comments == old(comments)[t := old(comments)[t].(deadline := comments[t].deadline)]
      ensures
        var c, d := comments[t], comments[t].deadline;
        && attempts[t] == Attempt(c.sessionId, c.windowVersion, d, UserStopped, false)
        && d <= c.received + T0_FRESHNESS_BUDGET_MS && d <= clock + SELECTED_BUDGET_MS
        && d <= c.received + window.maxAgeMs
        && d in {c.received + T0_FRESHNESS_BUDGET_MS, clock + SELECTED_BUDGET_MS, c.received + window.maxAgeMs}
      ensures old(clock) <= clock
      ensures t in ready.chains && t in audited && audited[t] == ready.chains[t]
      ensures Turn(ready, View(), {t})
    {
      hide Inv, Ledger, Ids, DistinctIds, Unreferenced, Turn;
      CandidateKnown(ready, t);
      var c := comments[t];
      var deadline := AttemptDeadline(c.received);
      var a := Attempt(c.sessionId, c.windowVersion, deadline, UserStopped, false);
      Select(ready, t, c.(deadline := deadline), a, clock);
      ghost var chosen := Selected(ready, t, c.(deadline := deadline), a, clock);
      comments := comments[t := c.(deadline := deadline)];
      attempts := attempts[t := a];
      attempt := Some(t);
      assert View() == chosen;
      TurnOfElection(ready, View(), t);
    }

    /** The selected candidate becomes the attempt and runs until it first suspends. */
    method Start(t: TraceId, ghost ready: State)
      requires window.Valid() && machine.Valid() && Ledger(pendingQueue, enqueued, left, promotions, nextTrace)
      requires Inv(ready, {}) && t in ready.windowIds && ready.attempt == None && !ready.abortRequested
      requires View() == ready.(windowIds := ready.windowIds - {t}, windowed := ready.windowed - {t})
      modifies this`attempt, this`displayTimer, this`conts, this`traceState, this`audited, this`refused,
        this`windowedComments, this`comments, this`attempts, this`clock, window`candidates, machine`activity
      ensures Stable()
      ensures old(window.candidates) == [] ==> window.candidates == []
      ensures Turn(ready, View(), {})
      ensures machine.lifecycle == Service.Running && !abortRequested ==> attempt.Some? || window.candidates == []
      ensures old(clock) <= clock
      decreases |window.candidates|, 9
    {
      hide Good, Unreferenced, Ids, Turn, Inv, Ledger, Own, LeftBy;
      Elect(t, ready);
      ghost var chosen := View();
      RunAttempt(t);
      TurnOfStart(ready, chosen, View(), t);
    }

    /** The prompt is rendered and audited; the provider configuration is awaited. */
    method AwaitConfiguration(t: TraceId)
      requires Attempting(t) && traceState[t] == Retrieving
      modifies this`conts, this`traceState, this`audited, this`refused
      ensures Stable() && attempt.Some?
      ensures Turn(old(View()), View(), {t}) && Own(old(View()), View(), t)
      ensures LeftBy(old(View()), View(), t)
      ensures t in old(audited) && t in audited && t in conts && conts[t] == AwaitConfig
      ensures audited[t] == old(audited)[t] + [Entry(Some(Retrieving), PromptRendered, LlmRequired)]
    {
      hide Good, Unreferenced, Ids, Turn, Own;
      ghost var start := View();
      AdvanceAttempt(t, Retrieving, PromptRendered, LlmRequired);
      ghost var rendered := View();
      Suspend(t, AwaitConfig);
      TurnOwnTrans(start, rendered, View(), t);
    }

    /** Golden direct push first, otherwise the prompt is rendered and the provider configuration awaited. */
    method RunAttempt(t: TraceId)
      requires Attempting(t) && traceState[t] == Retrieving
      modifies this`attempt, this`displayTimer, this`conts, this`traceState, this`audited, this`refused,
        this`windowedComments, this`comments, this`attempts, this`clock, window`candidates, machine`activity
      ensures Stable()
      ensures old(window.candidates) == [] ==> window.candidates == []
      ensures Turn(old(View()), View(), {t}) && Own(old(View()), View(), t)
      ensures LeftBy(old(View()), View(), t)
      ensures machine.lifecycle == Service.Running && !abortRequested ==> attempt.Some? || window.candidates == []
      ensures old(clock) <= clock
      decreases |window.candidates|, 8
    {
      hide Good, Ids, Unreferenced, Turn, Own;
      var throws := Verdict();
      if throws {
        Suspend(t, AttemptThrown);
        return;
      }
      var direct := Verdict();
      if direct {
        PushDirectly(t);
      } else {
        Prepare(t);
      }
    }

    /** The generation path, up to its first await. */
    method Prepare(t: TraceId)
      requires Attempting(t) && traceState[t] == Retrieving
      modifies this`conts, this`traceState, this`audited, this`refused, machine`activity
      ensures Stable() && attempt.Some?
      ensures machine.activity == if old(machine.activity) in {Service.Listening, Service.Retrieving}
                                  then Service.Generating else old(machine.activity)
      ensures Turn(old(View()), View(), {t}) && Own(old(View()), View(), t)
      ensures LeftBy(old(View()), View(), t)
    {
      hide Inv, Ledger, Ids, DistinctIds, Unreferenced, Turn, Own, Agrees;
      EnterGenerating();
      var throws := Verdict();
      if throws {
        Suspend(t, AttemptThrown);
      } else {
        AwaitConfiguration(t);
      }
    }

    /** The direct path: the stored reply has passed the output validator. */
    method PushDirectly(t: TraceId)
      requires Attempting(t) && traceState[t] == Retrieving
      modifies this`attempt, this`displayTimer, this`conts, this`traceState, this`audited, this`refused,
        this`windowedComments, this`comments, this`attempts, this`clock, window`candidates, machine`activity
      ensures Stable()
      ensures old(window.candidates) == [] ==> window.candidates == []
      ensures Turn(old(View()), View(), {t}) && Own(old(View()), View(), t)
      ensures LeftBy(old(View()), View(), t)
      ensures FinishedOrAt(t, {AwaitShow}) && t in old(audited) && t in audited
      ensures old(audited)[t] + [Entry(Some(Retrieving), DirectReady, GoldenDirectEligible)] <= audited[t]
      ensures old(!Fresh(View(), t)) ==>
        audited[t] == old(audited)[t] + [Entry(Some(Retrieving), DirectReady, GoldenDirectEligible),
                                            Entry(Some(DirectReady), DisplayReady, OutputValidated),
                                            Entry(Some(DisplayReady), Discarded, UserStopped)]
      ensures machine.lifecycle == Service.Running && !abortRequested ==> attempt.Some? || window.candidates == []
      ensures old(clock) <= clock
      decreases |window.candidates|, 7
    {
      hide Good, Unreferenced, Ids, Turn, Own, ClosedWith, Fresh;
      ghost var start := View();
      AdvanceAttempt(t, Retrieving, DirectReady, GoldenDirectEligible);
      ghost var direct := View();
      OwnAside(start, direct, t);
      StaleStays(start, direct, t);
      ShowDirect(t);
      TurnOwnTrans(start, direct, View(), t);
      TurnExtends(direct, View(), {t}, t);
      if !Fresh(direct, t) {
        ClosedDirect(start, direct, View(), t, UserStopped);
      }
    }

    /** The attempt may be pushed: it is shown, or closed when it has become stale. */
    method ShowDirect(t: TraceId)
      requires Attempting(t) && traceState[t] == DirectReady
      modifies this`attempt, this`displayTimer, this`conts, this`traceState, this`audited, this`refused,
        this`windowedComments, this`comments, this`attempts, this`clock, window`candidates, machine`activity
      ensures Stable()
      ensures old(window.candidates) == [] ==> window.candidates == []
      ensures Turn(old(View()), View(), {t}) && Own(old(View()), View(), t)
      ensures machine.lifecycle == Service.Running && !abortRequested ==> attempt.Some? || window.candidates == []
      ensures old(clock) <= clock
      ensures FinishedOrAt(t, {AwaitShow}) && t in audited
      ensures old(!Fresh(View(), t)) ==> ClosedWith(old(View()), View(), t, UserStopped)
      decreases |window.candidates|, 6
    {
      hide Good, Unreferenced, Ids, Turn, Own, ClosedWith, Fresh, AttemptClosedIfStale;
      ghost var start := View();
      AttemptKnown(t);
      var stale := AttemptFreshness(t);
      ghost var checked := View();
      if stale.Some? {
        CancelStale(t, attempts[t].cancelReason, start);
      } else {
        AdvanceAttempt(t, DirectReady, DisplayReady, OutputValidated);
        ghost var ready := View();
        Display(t);
        TurnOwnTrans(checked, ready, View(), t);
        TurnOwnTrans(start, checked, View(), t);
        TurnExtends(start, View(), {t}, t);
      }
      OwnAside(start, checked, t);
      StaleStays(start, checked, t);
    }

    /** Asks the overlay to show the suggestion, unless the attempt is stale. */
    method Display(t: TraceId)
      requires Attempting(t) && traceState[t] == DisplayReady
      modifies this`attempt, this`displayTimer, this`conts, this`traceState, this`audited, this`refused,
        this`windowedComments, this`comments, this`attempts, this`clock, window`candidates, machine`activity
      ensures Stable()
      ensures old(window.candidates) == [] ==> window.candidates == []
      ensures Turn(old(View()), View(), {t}) && Own(old(View()), View(), t)
      ensures AttemptClosedIfStale(old(View()), View(), t)
      ensures machine.lifecycle == Service.Running && !abortRequested ==> attempt.Some? || window.candidates == []
      ensures FinishedOrAt(t, {AwaitShow})
      ensures t in conts && machine.lifecycle == Service.Running ==> machine.activity == Service.Displaying
      ensures old(clock) <= clock
      decreases |window.candidates|, 5
    {
      hide Good, Ids, Unreferenced, Turn, Own, ClosedWith, AttemptClosedIfStale;
      ghost var start := View();
      var stale := AttemptFreshness(t);
      ghost var checked := View();
      if stale.Some? {
        CancelStale(t, stale.value, start);
      } else {
        EnterDisplayingFor(t);
        Suspend(t, AwaitShow);
        TurnOwnTrans(start, checked, View(), t);
      }
      ClosedOnAttemptVerdict(start, checked, View(), t);
    }

    method EnterDisplayingFor(t: TraceId)
      requires Attempting(t)
      modifies machine`activity, this`refused
      ensures Attempting(t) && View() == old(View())
      ensures machine.activity ==
        if machine.lifecycle == Service.Running then Service.Displaying else old(machine.activity)
    {
      hide Inv, Ledger, Ids, DistinctIds, Unreferenced, Agrees;
      EnterDisplaying();
    }

    /** Closes the attempt's trace from its actual last state and releases the mutex. */
    method CancelAttempt(t: TraceId, reason: Reason)
      requires Good({t}) && t in traceState
      requires t !in pendingQueue && t !in Ids(window.candidates) && t !in windowedComments
      requires attempt == None || attempt == Some(t)
      requires t in conts ==> abortRequested && !OfSearch(conts[t])
      modifies this`attempt, this`displayTimer, this`conts, this`traceState, this`audited, this`refused,
        this`windowedComments, this`comments, this`attempts, this`clock, window`candidates, machine`activity
      ensures Stable()
      ensures old(abortRequested) ==>
        attempts == old(attempts) && conts == old(conts) && unchanged(window) && attempt == None && displayTimer == None
      ensures old(window.candidates) == [] ==> window.candidates == []
      ensures Turn(old(View()), View(), {t})
      ensures ClosedWith(old(View()), View(), t, reason)
      ensures machine.lifecycle == Service.Running && !abortRequested ==> attempt.Some? || window.candidates == []
      ensures old(clock) <= clock
      ensures attempt != Some(t) && Aside(old(View()), View(), t)
      decreases |window.candidates|, 2
    {
      hide Inv, Ledger, Ids, DistinctIds, Turn, FinishedKept, ClosedWith, IsPath;
      ghost var start := View();
      HandKnown(View(), {t}, t);
      CloseChain(t, reason, {t});
      ghost var closed := View();
      TurnOfTrace(start, closed, t);
      ClearAttempt(t);
      TurnTrans(start, closed, View(), {t});
      TurnFinished(closed, View(), {t});
      StaysClosed(start, closed, View(), t, reason);
      AsideTrans(start, closed, View(), t);
    }

    /** As `CancelAttempt`, from the middle of one of the attempt's own steps. */
    method CancelCurrent(t: TraceId, reason: Reason)
      requires Resumed(t)
      modifies this`attempt, this`displayTimer, this`conts, this`traceState, this`audited, this`refused,
        this`windowedComments, this`comments, this`attempts, this`clock, window`candidates, machine`activity
      ensures Stable()
      ensures old(abortRequested) ==>
        conts == old(conts) && unchanged(window) && attempt == None && displayTimer == None
      ensures old(window.candidates) == [] ==> window.candidates == []
      ensures Turn(old(View()), View(), {t})
      ensures ClosedWith(old(View()), View(), t, reason)
      ensures machine.lifecycle == Service.Running && !abortRequested ==> attempt.Some? || window.candidates == []
      ensures old(clock) <= clock
      ensures attempt != Some(t) && Aside(old(View()), View(), t)
      ensures t !in conts
      decreases |window.candidates|, 3
    {
      hide Inv, Ledger, Ids, DistinctIds, ClosedWith, Turn;
      ghost var start := View();
      CancelAttempt(t, reason);
      ClosedIsFinished(start, View(), t, reason);
      if !abortRequested {
        FinishedHasNoCont(View(), t);
      }
    }

    /** As `CancelCurrent`, for an attempt found stale since `start`. */
    method CancelStale(t: TraceId, reason: Reason, ghost start: State)
      requires Resumed(t)
      requires Turn(start, View(), {t}) && Own(start, View(), t) && View() == start.(clock := clock)
      requires !Fresh(View(), t)
      modifies this`attempt, this`displayTimer, this`conts, this`traceState, this`audited, this`refused,
        this`windowedComments, this`comments, this`attempts, this`clock, window`candidates, machine`activity
      ensures Stable()
      ensures old(abortRequested) ==>
        conts == old(conts) && unchanged(window) && attempt == None && displayTimer == None
      ensures old(window.candidates) == [] ==> window.candidates == []
      ensures Turn(start, View(), {t}) && Own(start, View(), t)
      ensures ClosedWith(old(View()), View(), t, reason) && ClosedWith(start, View(), t, reason)
      ensures machine.lifecycle == Service.Running && !abortRequested ==> attempt.Some? || window.candidates == []
      ensures old(clock) <= clock
      ensures attempt != Some(t) && t !in conts && t in traceState && Terminal(traceState[t])
      ensures t in start.chains && t in audited
      ensures !Fresh(View(), t)
      decreases |window.candidates|, 4
    {
      hide Good, Unreferenced, Ids, Turn, Own, ClosedWith;
      ghost var checked := View();
      CancelCurrent(t, reason);
      TurnClosed(start, checked, View(), t, reason);
      StaleStays(checked, View(), t);
      ClosedIsFinished(checked, View(), t, reason);
      ClosedSinceTaken(start, checked, View(), t, reason);
      ClosedExtends(start, View(), t, reason);
    }

    /** Marks the attempt failed and releases the mutex. */
    method Fail(t: TraceId)
      requires Attempting(t) && traceState[t] == LlmPending
      modifies this`attempt, this`displayTimer, this`conts, this`traceState, this`audited, this`refused,
        this`windowedComments, this`comments, this`attempts, this`clock, window`candidates, machine`activity
      ensures Stable()
      ensures Turn(old(View()), View(), {t}) && Own(old(View()), View(), t)
      ensures FinishedOrAt(t, {AttemptThrown})
      ensures t in old(audited) && t in audited
      ensures if t in conts then conts[t] == AttemptThrown && audited == old(audited)
              else audited[t] == old(audited)[t] + [Entry(Some(LlmPending), TraceState.Failed, ProviderFailed)]
      ensures old(clock) <= clock
    {
      hide Good, Ids, Turn, Unreferenced, Own;
      StandsStill(t);
      var throws := Verdict();
      if throws {
        Suspend(t, AttemptThrown);
      } else {
        FailNow(t);
      }
    }

    /** The failure is audited. */
    method FailNow(t: TraceId)
      requires Attempting(t) && traceState[t] == LlmPending
      modifies this`attempt, this`displayTimer, this`conts, this`traceState, this`audited, this`refused,
        this`windowedComments, this`comments, this`attempts, this`clock, window`candidates, machine`activity
      ensures Stable()
      ensures Turn(old(View()), View(), {t}) && Own(old(View()), View(), t)
      ensures t in traceState && Terminal(traceState[t]) && t !in conts
      ensures t in old(audited) && t in audited
      ensures audited[t] == old(audited)[t] + [Entry(Some(LlmPending), TraceState.Failed, ProviderFailed)]
      ensures old(clock) <= clock
    {
      hide Good, Unreferenced, Ids, Turn, Own;
      ghost var start := View();
      AdvanceAttempt(t, LlmPending, TraceState.Failed, ProviderFailed);
      ghost var failed := View();
      ReleaseFinished(t);
      TurnOwnTrans(start, failed, View(), t);
    }

    /** The attempt's trace is finished: the mutex is released. */
    method ReleaseFinished(t: TraceId)
      requires Attempting(t) && Terminal(traceState[t])
      modifies this`attempt, this`displayTimer, this`conts, this`traceState, this`audited, this`refused,
        this`windowedComments, this`comments, this`attempts, this`clock, window`candidates, machine`activity
      ensures Stable()
      ensures Turn(old(View()), View(), {t}) && Own(old(View()), View(), t)
      ensures t in traceState && traceState[t] == old(traceState)[t] && t !in conts
      ensures t in old(audited) && t in audited && audited[t] == old(audited)[t]
      ensures old(clock) <= clock
    {
      hide Inv, Ledger, Ids, DistinctIds, Turn, FinishedKept, Own, Aside, IsPath, Agrees;
      ghost var start := View();
      HandKnown(start, {t}, t);
      ClearAttempt(t);
      TurnFinished(start, View(), {t});
      StillFinished(start, View(), t);
      OwnSame(start, View(), t);
      NothingLeft(t);
    }

    /** Discards the attempt's trace and releases the mutex. */
    method Discard(t: TraceId, reason: Reason)
      requires Attempting(t) && (traceState[t] == Generated || traceState[t] == DisplayReady)
      requires !OfStaleness(reason)
      modifies this`attempt, this`displayTimer, this`conts, this`traceState, this`audited, this`refused,
        this`windowedComments, this`comments, this`attempts, this`clock, window`candidates, machine`activity
      ensures Stable()
      ensures Turn(old(View()), View(), {t}) && Own(old(View()), View(), t)
      ensures FinishedOrAt(t, {AttemptThrown})
      ensures t in old(audited) && t in audited
      ensures if t in conts then conts[t] == AttemptThrown && audited == old(audited)
              else ClosedWith(old(View()), View(), t, reason)
      ensures old(clock) <= clock
    {
      hide Inv, Ledger, Ids, DistinctIds, Turn, FinishedKept, ClosedWith, Own, IsPath;
      ghost var start := View();
      HandKnown(start, {t}, t);
      var throws := Verdict();
      if throws {
        Suspend(t, AttemptThrown);
        return;
      }
      CancelCurrent(t, reason);
      ClosedIsFinished(start, View(), t, reason);
      ClosedExtends(start, View(), t, reason);
      TurnSame(start, start, {t});
      OwnSame(start, start, t);
      TurnClosed(start, start, View(), t, reason);
    }

    /** Evicts every candidate while a trace is in hand. */
    method ClearWindow(t: TraceId)
      requires Good({t}) && t in traceState && t !in Ids(window.candidates) && t !in windowedComments
      modifies this`audited, this`traceState, this`refused, this`windowedComments, window`candidates
      ensures Good({t}) && window.candidates == []
      ensures t in traceState && traceState[t] == old(traceState)[t] && t !in windowedComments
      ensures Turn(old(View()), View(), {})
      ensures AllClosed(old(View()), View(), old(Ids(window.candidates)), Reason.WindowEvicted)
    {
      hide Inv, Ledger, DistinctIds, Turn, FinishedKept, Splits, AllClosed, OnlyTraces, Agrees, IsPath;
      ghost var start := View();
      HandKnown(start, {t}, t);
      var evicted := window.Clear();
      assert Ids(window.candidates) == {};
      assert start.windowIds - {} == start.windowIds;
      ghost var dropped := View();
      CloseDropped(evicted, start, {t});
      OutsideKept(dropped, View(), start.windowIds, t);
    }

    /** Empties the window after a display and starts a new version of it. */
    method ResetWindowAfterDisplay(t: TraceId)
      requires Good({t}) && t in traceState && t !in Ids(window.candidates) && t !in windowedComments
      modifies this`audited, this`traceState, this`refused, this`windowedComments, window
      ensures Good({t}) && window.candidates == []
      ensures t in traceState && traceState[t] == old(traceState)[t] && t !in windowedComments
      ensures window.windowVersion == old(window.windowVersion) + 1
      ensures Turn(old(View()), View(), {})
      ensures AllClosed(old(View()), View(), old(Ids(window.candidates)), Reason.WindowEvicted)
    {
      hide Inv, Ledger, DistinctIds, Turn, FinishedKept, AllClosed, Agrees;
      ghost var start := View();
      ClearWindow(t);
      ghost var emptied := View();
      assert Ids(window.candidates) == {};
      Rewindow(emptied, {t}, window.windowVersion + 1);
      window.BumpVersion();
      TurnSame(emptied, View(), {});
      TurnTrans(start, emptied, View(), {});
      FinishedSame(emptied, View());
      AllStayClosed(start, emptied, View(), start.windowIds, Reason.WindowEvicted);
    }

    // ------------------------------------------------------------------ comments

    /** Inserts the audit row of a comment; a message already audited is refused. */
    method BeginTrace(c: Comment) returns (begun: bool, t: TraceId)
      requires Stable()
      modifies this`messages, this`comments, this`nextTrace
      ensures Stable()
      ensures begun <==> (c.sessionId, c.messageId) !in old(messages)
      ensures !begun ==> View() == old(View()) && messages == old(messages)
      ensures begun ==>
        && t == old(nextTrace) && View() == old(View()).(comments := old(comments)[t := c], next := t + 1)
        && t !in audited && t !in traceState && Unreferenced(View(), t)
        && messages == old(messages) + {(c.sessionId, c.messageId)}
    {
      hide Inv;
      if (c.sessionId, c.messageId) in messages {
        return false, 0;
      }
      BeginNext(View(), c);
      messages := messages + {(c.sessionId, c.messageId)};
      begun, t := true, nextTrace;
      comments := comments[t := c];
      nextTrace := nextTrace + 1;
    }

    /** Audits a comment as received. */
    method Arrive(c: Comment) returns (begun: bool, t: TraceId)
      requires Stable()
      modifies this`messages, this`comments, this`nextTrace, this`audited, this`traceState, this`refused
      ensures begun <==> (c.sessionId, c.messageId) !in old(messages)
      ensures !begun ==> Stable() && View() == old(View())
      ensures begun ==>
        && t == old(nextTrace) && nextTrace == t + 1
        && Holding(t) && traceState[t] == Received && comments[t] == c
        && messages == old(messages) + {(c.sessionId, c.messageId)}
        && t in audited && audited[t] == [Entry(None, Received, EventReceived)]
        && t !in old(traceState) && t !in old(audited)
        && traceState == old(traceState)[t := Received] && audited == old(audited)[t := audited[t]]
      ensures begun ==> Ledger(pendingQueue, enqueued, left, promotions, t)
      ensures begun ==> Turn(old(View()), View(), {t})
    {
      hide Inv, Ledger, Ids, DistinctIds, Turn;
      ghost var start := View();
      begun, t := BeginTrace(c);
      if !begun {
        return;
      }
      BegunKeeps(View(), {}, t);
      assert {} + {t} == {t};
      Transition(t, None, Received, EventReceived);
      TurnOfArrival(start, View(), t, c);
    }

    /** Audits a comment as received and normalized. */
    method Receive(c: Comment) returns (begun: bool, t: TraceId)
      requires Stable()
      modifies this`messages, this`comments, this`nextTrace, this`audited, this`traceState, this`refused
      ensures begun <==> (c.sessionId, c.messageId) !in old(messages)
      ensures !begun ==> Stable() && View() == old(View())
      ensures begun ==>
        && t == old(nextTrace) && nextTrace == t + 1
        && Holding(t) && traceState[t] == Normalized && comments[t] == c
        && messages == old(messages) + {(c.sessionId, c.messageId)}
        && t in audited && audited[t] == EntryRows()
      ensures begun ==> Ledger(pendingQueue, enqueued, left, promotions, t)
      ensures begun ==> Turn(old(View()), View(), {t})
    {
      hide Good, Unreferenced, Ids, Turn;
      ghost var start := View();
      begun, t := Arrive(c);
      if begun {
        ghost var arrived := View();
        AdvanceHeld(t, Received, Normalized, NormalizationOk);
        TurnTrans(start, arrived, View(), {t});
      }
    }

    /** Forgets the older half of the bounded dedup set. */
    method EvictSeenHalf()
      modifies this`seen
      ensures exists k: nat | k <= |old(seen)| :: seen == old(seen)[k..] && |seen| == Min(|old(seen)|, SEEN_SET_MAX / 2)
    {
      var target := SEEN_SET_MAX / 2;
      var removed := |seen| - target;
      ghost var k: nat := 0;
      while removed > 0
        invariant k <= |old(seen)| && seen == old(seen)[k..]
        invariant removed == |seen| - target
        invariant k > 0 ==> removed >= 0
        decreases removed
      {
        seen := seen[1..];
        k := k + 1;
        removed := removed - 1;
      }
    }

    /** Enters a message in the bounded dedup set. */
    method Remember(messageId: nat)
      requires Stable()
      modifies this`seen
      ensures Stable() && View() == old(View())
      ensures seen != [] && seen[|seen| - 1] == messageId && |seen| <= |old(seen)| + 1
      ensures |old(seen)| <= SEEN_SET_MAX ==> |seen| <= SEEN_SET_MAX
    {
      hide Inv, Ledger, Ids, DistinctIds, Agrees;
      seen := seen + [messageId];
      if |seen| > SEEN_SET_MAX {
        EvictSeenHalf();
      }
    }

    /**
     * A comment event. The trace is written synchronously; retrieval continues
     * in the background. `blank` tells whether the normalized text is empty.
     */
    method HandleComment(messageId: nat, received: int, blank: bool)
      requires Stable()
      modifies this, window`candidates, machine`activity
      ensures Stable()
      ensures session == old(session) && abortRequested == old(abortRequested) && frozenQueueing == old(frozenQueueing)
      ensures old(session == None || messageId in seen || (session.value, messageId) in messages) ==>
        View() == old(View())
      ensures old(session.Some? && messageId !in seen && (session.value, messageId) !in messages) ==>
        && Entered(old(nextTrace), blank, old(machine.activity == Service.Displaying))
        && nextTrace == old(nextTrace) + 1 && audited.Keys == old(audited).Keys + {old(nextTrace)}
        && messages == old(messages) + {(session.value, messageId)} && messageId in seen
        && old(nextTrace) in comments
        && comments[old(nextTrace)]
           == Comment(session.value, messageId, old(window.windowVersion), received, received + PreAttemptBudget())
      ensures Progress(old(View()), View(), {old(nextTrace)}) && BooksGrow(old(Books()), Books())
      ensures old(pendingQueue) <= pendingQueue && promotions == old(promotions) && left == old(left)
    {
      hide Good, Ids, Progress, Turn, BooksGrow, Unreferenced, FinishedOrAt, Entered;
      ghost var start := View();
      ProgressSame(start, {nextTrace});
      NothingEntered(Books());
      if session == None {
        return;
      }
      var c := Comment(session.value, messageId, window.windowVersion, received,
                       received + PreAttemptBudget());
      if messageId in seen {
        return;
      }
      Accept(c, blank);
    }

    /** A message not in the dedup set enters it and is admitted. */
    method Accept(c: Comment, blank: bool)
      requires Stable()
      modifies this`seen, this`messages, this`nextTrace, this`pendingQueue, this`enqueued, this`attempt,
        this`displayTimer, this`conts, this`traceState, this`audited, this`refused, this`windowedComments,
        this`comments, this`attempts, this`clock, window`candidates, machine`activity
      ensures Stable() && c.messageId in seen
      ensures (c.sessionId, c.messageId) in old(messages) ==> View() == old(View())
      ensures (c.sessionId, c.messageId) !in old(messages) ==>
        && Entered(old(nextTrace), blank, old(machine.activity == Service.Displaying))
        && nextTrace == old(nextTrace) + 1 && audited.Keys == old(audited).Keys + {old(nextTrace)}
        && messages == old(messages) + {(c.sessionId, c.messageId)}
        && old(nextTrace) in comments && comments[old(nextTrace)] == c
      ensures Progress(old(View()), View(), {old(nextTrace)}) && BooksGrow(old(Books()), Books())
      ensures old(pendingQueue) <= pendingQueue
    {
      hide Good, Ids, Progress, Turn, BooksGrow, Unreferenced, FinishedOrAt, Entered;
      ghost var start := View();
      Remember(c.messageId);
      Admit(c, blank);
      ProgressKeys(start, View(), old(nextTrace));
    }

    /** Audits a comment seen for the first time and sends it on its way. */
    method Admit(c: Comment, blank: bool)
      requires Stable()
      modifies this`messages, this`nextTrace, this`pendingQueue, this`enqueued, this`attempt, this`displayTimer,
        this`conts, this`traceState, this`audited, this`refused, this`windowedComments, this`comments, this`attempts,
        this`clock, window`candidates, machine`activity
      ensures Stable()
      ensures (c.sessionId, c.messageId) in old(messages) ==> View() == old(View())
      ensures (c.sessionId, c.messageId) !in old(messages) ==>
        && Entered(old(nextTrace), blank, old(machine.activity == Service.Displaying))
        && nextTrace == old(nextTrace) + 1
        && old(nextTrace) in audited && old(nextTrace) in comments && comments[old(nextTrace)] == c
        && messages == old(messages) + {(c.sessionId, c.messageId)}
      ensures Progress(old(View()), View(), {old(nextTrace)}) && BooksGrow(old(Books()), Books())
      ensures old(pendingQueue) <= pendingQueue
    {
      hide Good, Unreferenced, Ids, Turn, Progress;
      if blank {
        DiscardBlank(c);
      } else if machine.activity == Service.Displaying {
        QueueOrDiscard(c);
      } else {
        RetrieveNew(c);
      }
    }

    /** A comment without text is audited and discarded. */
    method DiscardBlank(c: Comment)
      requires Stable()
      modifies this`messages, this`nextTrace, this`traceState, this`audited, this`refused, this`comments
      ensures Stable()
      ensures (c.sessionId, c.messageId) in old(messages) ==> View() == old(View())
      ensures (c.sessionId, c.messageId) !in old(messages) ==>
        && Entered(old(nextTrace), true, false) && nextTrace == old(nextTrace) + 1
        && old(nextTrace) in comments && comments[old(nextTrace)] == c
        && messages == old(messages) + {(c.sessionId, c.messageId)}
      ensures Progress(old(View()), View(), {old(nextTrace)})
    {
      hide Good, Unreferenced, Ids, Turn, Progress;
      ghost var start := View();
      ProgressSame(start, {nextTrace});
      var begun, t := Receive(c);
      if begun {
        ghost var received := View();
        AdvanceHeld(t, Normalized, Discarded, EmptyNormalized);
        LetGo(t);
        TurnTrans(start, received, View(), {t});
        TurnProgress(start, View(), {t});
      }
    }

    /** A comment that arrives while nothing is displayed goes on to retrieval. */
    method RetrieveNew(c: Comment)
      requires Stable()
      modifies this`messages, this`nextTrace, this`attempt, this`displayTimer, this`conts, this`traceState,
        this`audited, this`refused, this`windowedComments, this`comments, this`attempts, this`clock,
        window`candidates, machine`activity
      ensures Stable()
      ensures (c.sessionId, c.messageId) in old(messages) ==> View() == old(View())
      ensures (c.sessionId, c.messageId) !in old(messages) ==>
        && Entered(old(nextTrace), false, false) && nextTrace == old(nextTrace) + 1
        && old(nextTrace) in comments && comments[old(nextTrace)] == c
        && messages == old(messages) + {(c.sessionId, c.messageId)}
      ensures Progress(old(View()), View(), {old(nextTrace)})
    {
      hide Good, Unreferenced, Ids, Turn, Progress;
      ghost var start := View();
      ProgressSame(start, {nextTrace});
      var begun, t := Receive(c);
      if begun {
        ghost var received := View();
        ContinueFromNormalized(t);
        TurnProgress(start, received, {t});
        ProgressTrans(start, received, View(), {t});
      }
    }

    /** The two rows every comment enters the audit with. */
    static function EntryRows(): seq<Entry> {
      [Entry(None, Received, EventReceived), Entry(Some(Received), Normalized, NormalizationOk)]
    }

    /** What a new comment leaves behind at once. */
    ghost predicate Entered(t: TraceId, blank: bool, displaying: bool)
      reads this
    {
      && t in audited && EntryRows() <= audited[t]
      && if blank then audited[t] == EntryRows() + [Entry(Some(Normalized), Discarded, EmptyNormalized)]
         else if displaying then
           || (t in pendingQueue && audited[t] == EntryRows())
           || audited[t] == EntryRows() + [Entry(Some(Normalized), Discarded, DisplayWindowActive)]
         else FinishedOrAt(t, {Searching})
    }

    /** The newest comment joins the backlog. */
    method EnqueueHeld(t: TraceId)
      requires Holding(t) && traceState[t] == Normalized && |pendingQueue| < QUEUE_MAX && nextTrace == t + 1
      requires Ledger(pendingQueue, enqueued, left, promotions, t)
      modifies this`pendingQueue, this`enqueued
      ensures Stable()
      ensures pendingQueue == old(pendingQueue) + [t]
      ensures enqueued == old(enqueued) + {t}
    {
      hide Inv, Agrees;
      LedgerEnqueue(pendingQueue, enqueued, left, promotions, t);
      Enqueue(View(), t);
      pendingQueue := pendingQueue + [t];
      enqueued := enqueued + {t};
    }

    /** While a suggestion is displayed a comment is queued, or discarded when it cannot be. */
    method QueueOrDiscard(c: Comment)
      requires Stable()
      modifies this`messages, this`comments, this`nextTrace, this`audited, this`traceState, this`refused,
        this`pendingQueue, this`enqueued
      ensures Stable()
      ensures (c.sessionId, c.messageId) in old(messages) ==> View() == old(View())
      ensures (c.sessionId, c.messageId) !in old(messages) ==>
        && Entered(old(nextTrace), false, true) && nextTrace == old(nextTrace) + 1
        && old(nextTrace) in comments && comments[old(nextTrace)] == c
        && messages == old(messages) + {(c.sessionId, c.messageId)}
        && pendingQueue == old(pendingQueue) +
             if frozenQueueing.Some? && frozenQueueing.value.enabled && |old(pendingQueue)| < QUEUE_MAX
             then [old(nextTrace)] else []
      ensures Progress(old(View()), View(), {old(nextTrace)}) && BooksGrow(old(Books()), Books())
    {
      hide Good, Unreferenced, Ids, Turn, Progress, BooksGrow, FinishedOrAt, EntryRows, Entered;
      ghost var start := View();
      ProgressSame(start, {nextTrace});
      NothingEntered(Books());
      var begun, t := Receive(c);
      if !begun {
        return;
      }
      ghost var received := View();
      QueueHeld(t);
      EntersQueue(t);
      TurnTrans(start, received, View(), {t});
      TurnProgress(start, View(), {t});
    }

    /** A comment queued or discarded at once has entered. */
    lemma EntersQueue(t: TraceId)
      requires t in audited
      requires (t in pendingQueue && audited[t] == EntryRows())
            || audited[t] == EntryRows() + [Entry(Some(Normalized), Discarded, DisplayWindowActive)]
      ensures Entered(t, false, true)
    {
    }

    /** The normalized comment is queued when queueing is on and there is room, and discarded otherwise. */
    method QueueHeld(t: TraceId)
      requires Holding(t) && traceState[t] == Normalized && nextTrace == t + 1
      requires Ledger(pendingQueue, enqueued, left, promotions, t)
      modifies this`audited, this`traceState, this`refused, this`pendingQueue, this`enqueued
      ensures Stable()
      ensures Turn(old(View()), View(), {t}) && BooksGrow(old(Books()), Books())
      ensures t in old(audited) && t in audited
      ensures if frozenQueueing.Some? && frozenQueueing.value.enabled && |old(pendingQueue)| < QUEUE_MAX
              then pendingQueue == old(pendingQueue) + [t] && audited == old(audited)
              else pendingQueue == old(pendingQueue)
                   && audited[t] == old(audited)[t] + [Entry(Some(Normalized), Discarded, DisplayWindowActive)]
    {
      hide Inv, Ledger, Ids, DistinctIds, Turn, Agrees, IsPath;
      ghost var start := View();
      HandKnown(start, {t}, t);
      if frozenQueueing.Some? && frozenQueueing.value.enabled && |pendingQueue| < QUEUE_MAX {
        EnqueueHeld(t);
        TurnSame(start, View(), {t});
      } else {
        AdvanceHeld(t, Normalized, Discarded, DisplayWindowActive);
        LetGo(t);
      }
    }

    /** The comment is routed and goes on to retrieval. */
    method RouteHeld(t: TraceId)
      requires Holding(t) && traceState[t] == Normalized
      modifies this`attempt, this`displayTimer, this`conts, this`traceState, this`audited, this`refused,
        this`windowedComments, this`comments, this`attempts, this`clock, window`candidates, machine`activity
      ensures Stable()
      ensures Progress(old(View()), View(), {t}) && Own(old(View()), View(), t)
      ensures FinishedOrAt(t, {Searching})
      ensures t in conts && conts[t] == Searching ==>
        (if old(machine.activity) == Service.Listening then machine.activity == Service.Retrieving
         else machine.activity == old(machine.activity))
      ensures t in old(audited) && t in audited
      ensures old(audited)[t] + [Entry(Some(Normalized), Routed, PersonaRouted)] <= audited[t]
      ensures old(window.candidates) == [] ==> window.candidates == [] && attempt == old(attempt)
      ensures old(clock) <= clock
    {
      hide Good, Ids, Unreferenced, Progress, FinishedKept, Own;
      ghost var start := View();
      AdvanceHeld(t, Normalized, Routed, PersonaRouted);
      EnterRetrievingHeld(t);
      ghost var routed := View();
      Retrieve(t);
      ProgressOwnTrans(start, routed, View(), t);
    }

    method EnterRetrievingHeld(t: TraceId)
      requires Holding(t)
      modifies machine`activity, this`refused
      ensures Holding(t) && View() == old(View())
      ensures machine.activity ==
        if old(machine.activity) == Service.Listening then Service.Retrieving else old(machine.activity)
    {
      hide Inv, Ledger, Ids, DistinctIds, Unreferenced, Agrees;
      EnterRetrieving();
    }

    /** Input safety, member routing, then retrieval. */
    method ContinueFromNormalized(t: TraceId)
      requires Holding(t) && traceState[t] == Normalized
      modifies this`attempt, this`displayTimer, this`conts, this`traceState, this`audited, this`refused,
        this`windowedComments, this`comments, this`attempts, this`clock, window`candidates, machine`activity
      ensures Stable()
      ensures Progress(old(View()), View(), {t}) && Own(old(View()), View(), t)
      ensures FinishedOrAt(t, {Searching})
      ensures t in conts && conts[t] == Searching ==>
        (if old(machine.activity) == Service.Listening then machine.activity == Service.Retrieving
         else machine.activity == old(machine.activity))
      ensures t in old(audited) && t in audited && old(audited)[t] <= audited[t]
      ensures
        || audited[t] == old(audited)[t] + [Entry(Some(Normalized), Filtered, InputSafetyFiltered)]
        || audited[t] == old(audited)[t] + [Entry(Some(Normalized), Discarded, PersonaRouteUnavailable)]
        || old(audited)[t] + [Entry(Some(Normalized), Routed, PersonaRouted)] <= audited[t]
      ensures old(window.candidates) == [] ==> window.candidates == [] && attempt == old(attempt)
      ensures old(clock) <= clock
    {
      hide Good, Unreferenced, Ids, Progress, Own;
      var allowed := Verdict();
      if !allowed {
        AdvanceHeld(t, Normalized, Filtered, InputSafetyFiltered);
        LetGo(t);
        return;
      }
      var routed := Verdict();
      if !routed {
        AdvanceHeld(t, Normalized, Discarded, PersonaRouteUnavailable);
        LetGo(t);
        return;
      }
      RouteHeld(t);
    }

    /** Retrieval up to its search, which it awaits. */
    method Retrieve(t: TraceId)
      requires Holding(t) && traceState[t] == Routed
      modifies this`attempt, this`displayTimer, this`conts, this`traceState, this`audited, this`refused,
        this`windowedComments, this`comments, this`attempts, this`clock, window`candidates, machine`activity
      ensures Stable()
      ensures Progress(old(View()), View(), {t}) && Own(old(View()), View(), t)
      ensures ClosedIfStale(old(View()), View(), t)
      ensures FinishedOrAt(t, {Searching})
      ensures t in conts && conts[t] == Searching ==> machine.activity == old(machine.activity)
      ensures t in old(audited) && t in audited && old(audited)[t] <= audited[t]
      ensures old(window.candidates) == [] ==> window.candidates == [] && attempt == old(attempt)
      ensures old(clock) <= clock
    {
      hide Good, Unreferenced, Ids, Progress, Turn, Own, ClosedWith, ClosedIfStale;
      ghost var start := View();
      var cancelled := CommentCancelled(t);
      ghost var checked := View();
      if cancelled.Some? {
        AbandonStale(t, cancelled.value, start);
      } else {
        TurnProgress(start, checked, {t});
        Search(t);
        ProgressOwnTrans(start, checked, View(), t);
      }
      ClosedOnVerdict(start, checked, View(), t);
    }

    /** Suspends at the search, unless the comment is stale by now. */
    method AwaitSearch(t: TraceId)
      requires Holding(t) && traceState[t] == TraceState.Retrieving
      modifies this`attempt, this`displayTimer, this`conts, this`traceState, this`audited, this`refused,
        this`windowedComments, this`comments, this`attempts, this`clock, window`candidates, machine`activity
      ensures Stable()
      ensures Progress(old(View()), View(), {t}) && Own(old(View()), View(), t)
      ensures ClosedIfStale(old(View()), View(), t)
      ensures FinishedOrAt(t, {Searching})
      ensures t in conts && conts[t] == Searching ==> machine.activity == old(machine.activity)
      ensures t in old(audited) ==> t in audited && old(audited)[t] <= audited[t]
      ensures old(window.candidates) == [] ==> window.candidates == [] && attempt == old(attempt)
      ensures old(clock) <= clock
    {
      hide Good, Unreferenced, Ids, Progress, Turn, Own, ClosedWith, ClosedIfStale;
      ghost var start := View();
      var cancelled := CommentCancelled(t);
      ghost var checked := View();
      if cancelled.Some? {
        AbandonStale(t, cancelled.value, start);
      } else {
        TurnProgress(start, checked, {t});
        SuspendSearch(t, Searching);
        ProgressOwnTrans(start, checked, View(), t);
      }
      ClosedOnVerdict(start, checked, View(), t);
    }

    /** Enters RETRIEVING and goes on to the search. */
    method Search(t: TraceId)
      requires Holding(t) && traceState[t] == Routed
      modifies this`attempt, this`displayTimer, this`conts, this`traceState, this`audited, this`refused,
        this`windowedComments, this`comments, this`attempts, this`clock, window`candidates, machine`activity
      ensures Stable()
      ensures Progress(old(View()), View(), {t}) && Own(old(View()), View(), t)
      ensures FinishedOrAt(t, {Searching})
      ensures t in conts && conts[t] == Searching ==> machine.activity == old(machine.activity)
      ensures t in old(audited) && t in audited && old(audited)[t] <= audited[t]
      ensures old(window.candidates) == [] ==> window.candidates == [] && attempt == old(attempt)
      ensures old(clock) <= clock
    {
      hide Good, Unreferenced, Ids, Progress, Own;
      ghost var start := View();
      AdvanceHeld(t, Routed, TraceState.Retrieving, RetrievalStarted);
      ghost var entered := View();
      AwaitSearch(t);
      ProgressOwnTrans(start, entered, View(), t);
    }

    /** Closes a candidate that never reached the window and returns to LISTENING. */
    method Abandon(t: TraceId, reason: Reason)
      requires Holding(t)
      modifies this`attempt, this`displayTimer, this`conts, this`traceState, this`audited, this`refused,
        this`windowedComments, this`comments, this`attempts, this`clock, window`candidates, machine`activity
      ensures Stable()
      ensures old(abortRequested) || old(attempt).Some? ==>
        conts == old(conts) && unchanged(window) && attempt == old(attempt)
      ensures Turn(old(View()), View(), {t})
      ensures ClosedWith(old(View()), View(), t, reason) && Aside(old(View()), View(), t)
      ensures machine.lifecycle == Service.Running && !abortRequested ==> attempt.Some? || window.candidates == []
      ensures old(window.candidates) == [] ==> window.candidates == [] && attempt == old(attempt)
      ensures old(clock) <= clock
    {
      hide Inv, Ledger, Ids, DistinctIds, FinishedKept, Turn, ClosedWith, IsPath;
      ghost var start := View();
      HandKnown(start, {t}, t);
      CloseChain(t, reason, {t});
      ghost var closed := View();
      TurnOfTrace(start, closed, t);
      DropLoose(closed, t);
      RestoreListening();
      TurnOwn(closed, View(), t);
      AsideInTurn(closed, View(), t);
      TurnTrans(start, closed, View(), {t});
      TurnFinished(closed, View(), {t});
      StaysClosed(start, closed, View(), t, reason);
      AsideTrans(start, closed, View(), t);
    }

    /** As `Abandon`, for a comment found stale since `start`. */
    method AbandonStale(t: TraceId, reason: Reason, ghost start: State)
      requires Holding(t)
      requires Turn(start, View(), {t}) && Own(start, View(), t) && View() == start.(clock := clock)
      requires Closable(View(), t, reason)
      modifies this`attempt, this`displayTimer, this`conts, this`traceState, this`audited, this`refused,
        this`windowedComments, this`comments, this`attempts, this`clock, window`candidates, machine`activity
      ensures Stable()
      ensures old(abortRequested) || old(attempt).Some? ==>
        conts == old(conts) && unchanged(window) && attempt == old(attempt)
      ensures Turn(start, View(), {t}) && Own(start, View(), t) && Progress(start, View(), {t})
      ensures ClosedWith(old(View()), View(), t, reason) && ClosedWith(start, View(), t, reason)
      ensures t in traceState && Terminal(traceState[t])
      ensures t in conts ==> conts[t] != Searching
      ensures t in start.chains && t in audited && start.chains[t] <= audited[t]
      ensures old(window.candidates) == [] ==> window.candidates == [] && attempt == old(attempt)
      ensures old(clock) <= clock && (old(!Fresh(View(), t)) ==> !Fresh(View(), t))
    {
      hide Good, Unreferenced, Ids, Turn, Own, ClosedWith, Progress, Closable;
      ghost var checked := View();
      NothingRuns(t);
      Abandon(t, reason);
      StaleStays(checked, View(), t);
      TurnClosed(start, checked, View(), t, reason);
      TurnProgress(start, View(), {t});
      ClosedSinceTaken(start, checked, View(), t, reason);
      ClosedExtends(start, View(), t, reason);
      NotSearching(checked, View(), t);
    }

    /** A resumed retrieval has its comment in hand. */
    method TakeHeld(t: TraceId)
      requires Stable() && t in conts && OfSearch(conts[t])
      modifies this`conts
      ensures Holding(t) && View() == old(View()).(conts := old(conts) - {t})
      ensures t in audited && t in comments && traceState[t] == TraceState.Retrieving
      ensures Turn(old(View()), View(), {t}) && Own(old(View()), View(), t)
    {
      hide Inv, Ledger, Ids, DistinctIds, Turn, Agrees, IsPath;
      ghost var start := View();
      TakeSearch(View(), t);
      conts := conts - {t};
      TurnOfTake(start, View(), t);
      HandKnown(View(), {t}, t);
      OwnSame(start, View(), t);
    }

    /** The comment has been retrieved and is fresh: it is dropped as worthless or joins the window. */
    method Admitted(t: TraceId, unwanted: bool, priority: real)
      requires Holding(t) && traceState[t] == TraceState.Retrieving && comments[t].windowVersion == window.windowVersion
      requires !abortRequested
      modifies this`attempt, this`displayTimer, this`conts, this`traceState, this`audited, this`refused,
        this`windowedComments, this`comments, this`attempts, this`clock, window`candidates, machine`activity
      ensures Stable()
      ensures Turn(old(View()), View(), {t})
      ensures Fresh(View(), t) ==> NotStale(old(View()), View(), t)
      ensures t in old(audited) && t in audited
      ensures
        || (t in conts && conts[t] == SearchThrown && audited[t] == old(audited)[t])
        || (if unwanted then ClosedWith(old(View()), View(), t, SemanticDiscard)
            else LeftBy(old(View()), View(), t))
    {
      hide Good, Unreferenced, Ids, Turn, Own, ClosedWith, NotStale, LeftBy;
      ghost var start := View();
      StandsStill(t);
      var throws := Verdict();
      if throws {
        SuspendSearch(t, SearchThrown);
        OwnFresh(start, View(), t);
        return;
      }
      if unwanted {
        AbandonStale(t, SemanticDiscard, start);
        OwnFresh(start, View(), t);
        return;
      }
      AddCandidate(t, priority);
      ghost var joined := View();
      MaybeStartAttempt();
      TurnExtends(joined, View(), {}, t);
      TurnOwn(joined, View(), t);
      JoinedFresh(start, joined, View(), t);
      TurnTrans(start, joined, View(), {t});
    }

    /** The search of a comment has ended. */
    method ResumeSearch(t: TraceId, found: bool, unwanted: bool, priority: real)
      requires Stable() && t in conts && conts[t] == Searching
      modifies this`attempt, this`displayTimer, this`conts, this`traceState, this`audited, this`refused,
        this`windowedComments, this`comments, this`attempts, this`clock, window`candidates, machine`activity
      ensures Stable()
      ensures old(abortRequested) ==> conts == old(conts) - {t} && unchanged(window) && attempt == old(attempt)
      ensures Turn(old(View()), View(), {t})
      ensures !found ==> ClosedWith(old(View()), View(), t, RetrievalFailed)
      ensures t in conts ==> conts[t] != Searching
      ensures found && Fresh(View(), t) ==>
        || (t in conts && conts[t] == SearchThrown && t in old(audited) && t in audited
            && audited[t] == old(audited)[t])
        || (if unwanted then ClosedWith(old(View()), View(), t, SemanticDiscard)
            else LeftBy(old(View()), View(), t))
      ensures found ==> ClosedIfStale(old(View()), View(), t)
      ensures t in old(comments) && t in comments && t in old(audited) && t in audited
      ensures comments[t] == old(comments)[t].(deadline := comments[t].deadline)
      ensures found && !abortRequested && session == Some(comments[t].sessionId) ==>
        comments[t].windowVersion == window.windowVersion && clock <= comments[t].deadline ==>
          && old(audited)[t] <= audited[t]
          && forall i | |old(audited)[t]| <= i < |audited[t]| ::
               audited[t][i].reason !in {UserStopped, StaleSession, StaleWindow, DeadlineExceeded}
    {
      hide Good, Unreferenced, Ids, Turn, ClosedWith, Own, NotStale, ClosedIfStale, LeftBy;
      ghost var start := View();
      TakeHeld(t);
      ghost var held := View();
      AfterSearch(t, found, unwanted, priority);
      TurnTrans(start, held, View(), {t});
      NotSearching(held, View(), t);
      TurnAnchors(start, View(), {t}, t);
      if !found {
        ClosedSinceTaken(start, held, View(), t, RetrievalFailed);
      } else {
        StaleSinceTaken(start, held, View(), t);
        LeftSince(start, held, View(), t);
        ClosedLater(start, held, View(), t, SemanticDiscard);
      }
      if found && Fresh(View(), t) {
        NotStaleSince(start, held, View(), t);
        NotStaleRows(start, View(), t);
      }
    }

    /** What follows a search: a failed one or a stale comment is abandoned. */
    method AfterSearch(t: TraceId, found: bool, unwanted: bool, priority: real)
      requires Holding(t) && traceState[t] == TraceState.Retrieving
      modifies this`attempt, this`displayTimer, this`conts, this`traceState, this`audited, this`refused,
        this`windowedComments, this`comments, this`attempts, this`clock, window`candidates, machine`activity
      ensures Stable()
      ensures old(abortRequested) ==> conts == old(conts) && unchanged(window) && attempt == old(attempt)
      ensures Turn(old(View()), View(), {t})
      ensures found && Fresh(View(), t) ==> NotStale(old(View()), View(), t)
      ensures t in old(audited) && t in audited
      ensures found && Fresh(View(), t) ==>
        || (t in conts && conts[t] == SearchThrown && audited[t] == old(audited)[t])
        || (if unwanted then ClosedWith(old(View()), View(), t, SemanticDiscard)
            else LeftBy(old(View()), View(), t))
      ensures !found ==> ClosedWith(old(View()), View(), t, RetrievalFailed)
      ensures found ==> ClosedIfStale(old(View()), View(), t)
    {
      hide Good, Unreferenced, Ids, Turn, ClosedWith, Own, NotStale, ClosedIfStale, LeftBy;
      ghost var start := View();
      if !found {
        StandsStill(t);
        AbandonStale(t, RetrievalFailed, start);
        return;
      }
      var cancelled := CommentCancelled(t);
      ghost var checked := View();
      if cancelled.Some? {
        AbandonStale(t, cancelled.value, start);
        OwnFresh(start, View(), t);
      } else {
        Admitted(t, unwanted, priority);
        TurnTrans(start, checked, View(), {t});
        NotStaleSince(start, checked, View(), t);
        LeftSince(start, checked, View(), t);
        ClosedLater(start, checked, View(), t, SemanticDiscard);
      }
      ClosedOnVerdict(start, checked, View(), t);
    }

    /** The comment joins the rolling window; whatever the window drops is closed. */
    method AddCandidate(t: TraceId, priority: real)
      requires Holding(t) && traceState[t] == TraceState.Retrieving && comments[t].windowVersion == window.windowVersion
      modifies this`traceState, this`audited, this`refused, this`windowedComments, this`clock, window`candidates
      ensures Stable()
      ensures Turn(old(View()), View(), {t}) && NotStale(old(View()), View(), t)
      ensures LeftBy(old(View()), View(), t)
      ensures Added(old(window.candidates), Candidate(t, old(comments[t].received), priority), clock,
                    window.maxAgeMs, window.maxCount, window.candidates)
      ensures
        var dropped := old(Ids(window.candidates)) + {t} - Ids(window.candidates);
        AllClosed(old(View()), View(), dropped, Reason.WindowEvicted)
      ensures t in audited
      ensures (t in Ids(window.candidates) ==> audited[t] == old(audited)[t] && traceState[t] == Retrieving)
    {
      hide Inv, Ledger, Ids, DistinctIds, Turn, Splits, AllClosed, Added, OnlyTraces, NotStale, LeftBy, Agrees, IsPath;
      ghost var before := View();
      HandKnown(before, {t}, t);
      var now := Now();
      ghost var start := View();
      Later(before, start, {t});
      TurnOfTick(before, start, {t});
      ToWindow(start, t);
      windowedComments := windowedComments + {t};
      ghost var joined := View().(windowIds := View().windowIds + {t});
      var evicted := window.Add(Candidate(t, comments[t].received, priority), now);
      CloseJoined(t, evicted, start, joined);
      TurnTrans(before, start, View(), {t});
      NotStaleSince(before, start, View(), t);
      LeftSince(before, start, View(), t);
      AllClosedSince(before, start, View(), joined.windowIds - Ids(window.candidates), Reason.WindowEvicted);
    }

    /** Closes what the window dropped when `t` joined it. */
    method CloseJoined(t: TraceId, evicted: seq<TraceId>, ghost start: State, ghost joined: State)
      requires window.Valid() && machine.Valid() && Ledger(pendingQueue, enqueued, left, promotions, nextTrace)
      requires Agrees() && (abortRequested ==> attempt == None)
      requires Inv(joined, {}) && Splits(joined.windowIds, Ids(window.candidates), evicted)
      requires joined == start.(windowed := start.windowed + {t}, windowIds := start.windowIds + {t})
      requires View() == joined.(windowIds := Ids(window.candidates)) && t in start.chains && t in start.traceState
      modifies this`audited, this`traceState, this`refused, this`windowedComments
      ensures Stable()
      ensures Turn(start, View(), {t}) && NotStale(start, View(), t) && LeftBy(start, View(), t)
      ensures AllClosed(start, View(), joined.windowIds - Ids(window.candidates), Reason.WindowEvicted)
      ensures t in audited && t in traceState
      ensures t in Ids(window.candidates) ==> audited[t] == start.chains[t] && traceState[t] == start.traceState[t]
    {
      hide Inv, Ledger, Ids, DistinctIds, Turn, Splits, AllClosed, OnlyTraces, NotStale, LeftBy, ClosedWith, Agrees;
      ghost var added := View();
      CloseDropped(evicted, joined, {});
      TurnOfJoining(start, joined, View(), t);
      StillListed(start, joined, added, View(), t);
      JoinedNotStale(start, joined, View(), t, Ids(window.candidates));
      AllClosedSince(start, joined, View(), joined.windowIds - Ids(window.candidates), Reason.WindowEvicted);
    }

    // --------------------------------------------------- attempt continuations

    method Take(t: TraceId)
      requires Stable() && t in conts && !OfSearch(conts[t])
      modifies this`conts
      ensures Resumed(t) && View() == old(View()).(conts := old(conts) - {t})
      ensures attempt == Some(t) ==> StageState(old(conts)[t], traceState[t]) && !Terminal(traceState[t])
      ensures !abortRequested ==> Attempting(t)
      ensures Turn(old(View()), View(), {t}) && Own(old(View()), View(), t)
      ensures t in audited
    {
      hide Inv, Ledger, Ids, DistinctIds, Turn, Agrees, IsPath;
      ghost var start := View();
      TakeAttempt(View(), t);
      conts := conts - {t};
      TurnOfTake(start, View(), t);
      HandKnown(View(), {t}, t);
      OwnSame(start, View(), t);
    }

    /** The continuation throws; its catch handler runs in a later step. */
    method Throw(t: TraceId)
      requires Resumed(t)
      requires attempt == Some(t) ==> StageState(AttemptThrown, traceState[t])
      modifies this`conts
      ensures Stable() && conts == old(conts)[t := AttemptThrown]
      ensures Turn(old(View()), View(), {t}) && Own(old(View()), View(), t)
    {
      hide Inv, Ledger, Ids, DistinctIds, Turn, Agrees, IsPath;
      ghost var start := View();
      if attempt == Some(t) {
        ParkAttempt(View(), t, AttemptThrown);
      } else {
        ParkStale(View(), t);
      }
      conts := conts[t := AttemptThrown];
      TurnOfPark(start, View(), t, AttemptThrown);
      HandKnown(start, {t}, t);
      OwnSame(start, View(), t);
    }

    /** The awaited promise was rejected. */
    method Reject(t: TraceId)
      requires Stable() && t in conts && !Thrown(conts[t]) && !OfSearch(conts[t])
      modifies this`conts
      ensures Stable() && conts == old(conts)[t := AttemptThrown] && Spent(old(conts), conts, t)
      ensures Turn(old(View()), View(), {t}) && Own(old(View()), View(), t)
      ensures t in attempts && t in audited && audited == old(audited)
    {
      hide Good, Unreferenced, Ids, Turn, Own;
      ghost var start := View();
      Take(t);
      ghost var taken := View();
      Throw(t);
      TurnOwnTrans(start, taken, View(), t);
    }

    /** What follows the configuration read, unless the comment is stale by then. */
    method AfterConfig(t: TraceId, config: bool, keyed: bool)
      requires Resumed(t) && (attempt == Some(t) ==> traceState[t] == PromptRendered)
      modifies this`attempt, this`displayTimer, this`conts, this`traceState, this`audited, this`refused,
        this`windowedComments, this`comments, this`attempts, this`clock, window`candidates, machine`activity
      ensures Stable()
      ensures old(abortRequested) ==> conts == old(conts) && unchanged(window)
      ensures Turn(old(View()), View(), {t}) && Own(old(View()), View(), t)
      ensures FinishedOrAt(t, if config && keyed then {AwaitKey} else {AttemptThrown})
      ensures ClosedIfStale(old(View()), View(), t)
      ensures t in old(audited) && t in audited
      ensures Fresh(View(), t) ==>
        if config && keyed then t in conts && conts[t] == AwaitKey && audited[t] == old(audited)[t]
        else old(audited)[t] + [Entry(Some(PromptRendered), LlmPending, ProviderRequested)] <= audited[t]
    {
      hide Good, Unreferenced, Ids, Turn, Own, ClosedWith, ClosedIfStale;
      ghost var start := View();
      var cancelled := CommentCancelled(t);
      ghost var checked := View();
      if cancelled.Some? {
        CancelStale(t, cancelled.value, start);
      } else {
        if !config {
          RequestProvider(t, false);
        } else if keyed {
          Suspend(t, AwaitKey);
        } else {
          WithKey(t, false);
        }
        TurnOwnTrans(start, checked, View(), t);
      }
      ClosedOnVerdict(start, checked, View(), t);
    }

    /** The provider configuration has been read; `config` tells whether there is one. */
    method ResumeConfig(t: TraceId, rejected: bool, config: bool, keyed: bool)
      requires Stable() && t in conts && conts[t] == AwaitConfig
      modifies this`attempt, this`displayTimer, this`conts, this`traceState, this`audited, this`refused,
        this`windowedComments, this`comments, this`attempts, this`clock, window`candidates, machine`activity
      ensures Stable()
      ensures old(abortRequested) ==> Spent(old(conts), conts, t) && unchanged(window)
      ensures Turn(old(View()), View(), {t}) && Own(old(View()), View(), t)
      ensures t in old(audited) && t in audited
      ensures !rejected && Fresh(View(), t) ==>
        if config && keyed then t in conts && conts[t] == AwaitKey && audited[t] == old(audited)[t]
        else old(audited)[t] + [Entry(Some(PromptRendered), LlmPending, ProviderRequested)] <= audited[t]
      ensures rejected ==> conts == old(conts)[t := AttemptThrown] && audited == old(audited)
      ensures !rejected ==> FinishedOrAt(t, if config && keyed then {AwaitKey} else {AttemptThrown})
      ensures !rejected ==> ClosedIfStale(old(View()), View(), t)
    {
      hide Good, Unreferenced, Ids, Turn, Own, ClosedWith, ClosedIfStale;
      if rejected {
        Reject(t);
        return;
      }
      ghost var start := View();
      Take(t);
      ghost var taken := View();
      AfterConfig(t, config, keyed);
      TurnOwnTrans(start, taken, View(), t);
      StaleSinceTaken(start, taken, View(), t);
    }

    /** The credential has been read. */
    method ResumeKey(t: TraceId, rejected: bool, key: bool)
      requires Stable() && t in conts && conts[t] == AwaitKey
      modifies this`attempt, this`displayTimer, this`conts, this`traceState, this`audited, this`refused,
        this`windowedComments, this`comments, this`attempts, this`clock, window`candidates, machine`activity
      ensures Stable()
      ensures old(abortRequested) ==> Spent(old(conts), conts, t) && unchanged(window)
      ensures Turn(old(View()), View(), {t}) && Own(old(View()), View(), t)
      ensures t in old(audited) && t in audited
      ensures !rejected && Fresh(View(), t) ==>
        || (key && t in conts && conts[t] == AttemptThrown && audited[t] == old(audited)[t])
        || old(audited)[t] + [Entry(Some(PromptRendered), LlmPending, ProviderRequested)] <= audited[t]
      ensures rejected ==> conts == old(conts)[t := AttemptThrown] && audited == old(audited)
      ensures FinishedOrAt(t, if key then {AwaitProvider, AttemptThrown} else {AttemptThrown})
      ensures !rejected ==> ClosedIfStale(old(View()), View(), t)
    {
      hide Good, Unreferenced, Ids, Turn, Own, ClosedWith, ClosedIfStale;
      if rejected {
        Reject(t);
        return;
      }
      ghost var start := View();
      Take(t);
      ghost var taken := View();
      WithKey(t, key);
      TurnOwnTrans(start, taken, View(), t);
      StaleSinceTaken(start, taken, View(), t);
    }

    /** The request is audited; without a credential it fails at once. */
    method RequestProvider(t: TraceId, key: bool)
      requires Attempting(t) && traceState[t] == PromptRendered
      modifies this`attempt, this`displayTimer, this`conts, this`traceState, this`audited, this`refused,
        this`windowedComments, this`comments, this`attempts, this`clock, window`candidates, machine`activity
      ensures Stable()
      ensures Turn(old(View()), View(), {t}) && Own(old(View()), View(), t)
      ensures t in old(audited) && t in audited
      ensures old(audited)[t] + [Entry(Some(PromptRendered), LlmPending, ProviderRequested)] <= audited[t]
      ensures FinishedOrAt(t, if key then {AwaitProvider} else {AttemptThrown})
    {
      hide Good, Unreferenced, Ids, Turn, Own;
      ghost var start := View();
      AdvanceAttempt(t, PromptRendered, LlmPending, ProviderRequested);
      ghost var requested := View();
      if !key {
        Fail(t);
      } else {
        Suspend(t, AwaitProvider);
      }
      TurnOwnTrans(start, requested, View(), t);
      TurnExtends(requested, View(), {t}, t);
    }

    /** Sends the provider request, or fails the attempt when there is no credential. */
    method WithKey(t: TraceId, key: bool)
      requires Resumed(t)
      requires attempt == Some(t) ==> traceState[t] == PromptRendered
      modifies this`attempt, this`displayTimer, this`conts, this`traceState, this`audited, this`refused,
        this`windowedComments, this`comments, this`attempts, this`clock, window`candidates, machine`activity
      ensures Stable()
      ensures old(abortRequested) ==> conts == old(conts) && unchanged(window)
      ensures Turn(old(View()), View(), {t}) && Own(old(View()), View(), t)
      ensures t in old(audited) && t in audited
      ensures Fresh(View(), t) ==>
        || (key && t in conts && conts[t] == AttemptThrown && audited[t] == old(audited)[t])
        || old(audited)[t] + [Entry(Some(PromptRendered), LlmPending, ProviderRequested)] <= audited[t]
      ensures FinishedOrAt(t, if key then {AwaitProvider, AttemptThrown} else {AttemptThrown})
      ensures ClosedIfStale(old(View()), View(), t)
    {
      hide Good, Unreferenced, Ids, Turn, Own, ClosedWith, ClosedIfStale;
      ghost var start := View();
      var cancelled := CommentCancelled(t);
      ghost var checked := View();
      if cancelled.Some? {
        CancelStale(t, cancelled.value, start);
      } else {
        var throws := Verdict();
        if key && throws {
          Suspend(t, AttemptThrown);
        } else {
          RequestProvider(t, key);
        }
        TurnOwnTrans(start, checked, View(), t);
      }
      ClosedOnVerdict(start, checked, View(), t);
    }

    /** What follows the provider's answer, unless the comment is stale by then. */
    method AfterProvider(t: TraceId, outcome: ProviderOutcome)
      requires Resumed(t) && (attempt == Some(t) ==> traceState[t] == LlmPending) && !outcome.Rejected?
      modifies this`attempt, this`displayTimer, this`conts, this`traceState, this`audited, this`refused,
        this`windowedComments, this`comments, this`attempts, this`clock, window`candidates, machine`activity
      ensures Stable()
      ensures old(abortRequested) ==> conts == old(conts) && unchanged(window)
      ensures Turn(old(View()), View(), {t}) && Aside(old(View()), View(), t)
      ensures !outcome.Aborted? ==> Own(old(View()), View(), t)
      ensures t in old(audited) && t in audited
      ensures Fresh(View(), t) ==> Answer(old(View()), View(), t, outcome)
      ensures FinishedOrAt(t, if outcome.Answered? then {AwaitShow, AttemptThrown} else {AttemptThrown})
      ensures ClosedIfStale(old(View()), View(), t)
    {
      hide Good, Unreferenced, Ids, Turn, Own, ClosedWith, ClosedIfStale;
      ghost var start := View();
      var cancelled := CommentCancelled(t);
      ghost var checked := View();
      if cancelled.Some? {
        CancelStale(t, cancelled.value, start);
        OwnAside(start, View(), t);
      } else {
        AnswerInTime(t, outcome);
        TurnTrans(start, checked, View(), {t});
        AsideTaken(start, checked, View(), t);
        AnswerSince(start, checked, View(), t, outcome);
      }
      ClosedOnVerdict(start, checked, View(), t);
    }

    /** The provider's answer to an attempt that may go on. */
    method AnswerInTime(t: TraceId, outcome: ProviderOutcome)
      requires Attempting(t) && traceState[t] == LlmPending && !outcome.Rejected?
      modifies this`attempt, this`displayTimer, this`conts, this`traceState, this`audited, this`refused,
        this`windowedComments, this`comments, this`attempts, this`clock, window`candidates, machine`activity
      ensures Stable()
      ensures Turn(old(View()), View(), {t}) && Aside(old(View()), View(), t)
      ensures !outcome.Aborted? ==> Own(old(View()), View(), t)
      ensures FinishedOrAt(t, if outcome.Answered? then {AwaitShow, AttemptThrown} else {AttemptThrown})
      ensures t in old(audited) && t in audited && (Fresh(View(), t) ==> Answer(old(View()), View(), t, outcome))
    {
      hide Good, Unreferenced, Ids, Turn, Own, ClosedWith, Judged;
      ghost var start := View();
      StandsStill(t);
      if outcome.Aborted? {
        AttemptKnown(t);
        CancelCurrent(t, attempts[t].cancelReason);
        ClosedIsFinished(start, View(), t, UserStopped);
        ClosedExtends(start, View(), t, UserStopped);
        ClosedAt(start, View(), t, LlmPending, UserStopped);
      } else if outcome.Errored? {
        Fail(t);
        OwnAside(start, View(), t);
      } else {
        AdvanceAttempt(t, LlmPending, Generated, ProviderSucceeded);
        ghost var generated := View();
        Judge(t, outcome.declined, outcome.valid);
        JudgedSince(generated, start, View(), t, outcome.declined, outcome.valid);
        TurnOwnTrans(start, generated, View(), t);
        OwnAside(start, View(), t);
        TurnExtends(generated, View(), {t}, t);
      }
    }

    /** The provider call has ended. */
    method ResumeProvider(t: TraceId, outcome: ProviderOutcome)
      requires Stable() && t in conts && conts[t] == AwaitProvider
      modifies this`attempt, this`displayTimer, this`conts, this`traceState, this`audited, this`refused,
        this`windowedComments, this`comments, this`attempts, this`clock, window`candidates, machine`activity
      ensures Stable()
      ensures old(abortRequested) ==> Spent(old(conts), conts, t) && unchanged(window)
      ensures Turn(old(View()), View(), {t}) && Aside(old(View()), View(), t)
      ensures t in old(audited) && t in audited
      ensures !outcome.Rejected? && Fresh(View(), t) ==> Answer(old(View()), View(), t, outcome)
      ensures !outcome.Aborted? ==> Own(old(View()), View(), t)
      ensures outcome.Rejected? ==> conts == old(conts)[t := AttemptThrown] && audited == old(audited)
      ensures FinishedOrAt(t, if outcome.Answered? then {AwaitShow, AttemptThrown} else {AttemptThrown})
      ensures !outcome.Rejected? ==> ClosedIfStale(old(View()), View(), t)
    {
      hide Good, Unreferenced, Ids, Turn, Own, ClosedWith, ClosedIfStale, Answer;
      ghost var start := View();
      if outcome.Rejected? {
        Reject(t);
        OwnAside(start, View(), t);
        return;
      }
      Take(t);
      ghost var taken := View();
      AfterProvider(t, outcome);
      TurnTrans(start, taken, View(), {t});
      AsideTaken(start, taken, View(), t);
      StaleSinceTaken(start, taken, View(), t);
      AnswerSince(start, taken, View(), t, outcome);
    }

    /** The generated reply has passed the validator: it is shown, unless the attempt is stale. */
    method ShowGenerated(t: TraceId)
      requires Attempting(t) && traceState[t] == Generated
      modifies this`attempt, this`displayTimer, this`conts, this`traceState, this`audited, this`refused,
        this`windowedComments, this`comments, this`attempts, this`clock, window`candidates, machine`activity
      ensures Stable()
      ensures Turn(old(View()), View(), {t}) && Own(old(View()), View(), t)
      ensures AttemptClosedIfStale(old(View()), View(), t)
      ensures t in old(audited) && t in audited
      ensures Fresh(View(), t) ==>
        old(audited)[t] + [Entry(Some(Generated), DisplayReady, OutputValidated)] <= audited[t]
      ensures FinishedOrAt(t, {AwaitShow, AttemptThrown})
    {
      hide Good, Unreferenced, Ids, Turn, Own, ClosedWith, AttemptClosedIfStale;
      ghost var start := View();
      var stale := AttemptFreshness(t);
      ghost var checked := View();
      if stale.Some? {
        CancelStale(t, stale.value, start);
      } else {
        AdvanceAttempt(t, Generated, DisplayReady, OutputValidated);
        ghost var ready := View();
        Display(t);
        TurnExtends(ready, View(), {t}, t);
        TurnOwnTrans(checked, ready, View(), t);
        TurnOwnTrans(start, checked, View(), t);
      }
      ClosedOnAttemptVerdict(start, checked, View(), t);
    }

    /** The model's own decision, then the shared output validator, then the display. */
    method Judge(t: TraceId, declined: bool, valid: bool)
      requires Attempting(t) && traceState[t] == Generated
      modifies this`attempt, this`displayTimer, this`conts, this`traceState, this`audited, this`refused,
        this`windowedComments, this`comments, this`attempts, this`clock, window`candidates, machine`activity
      ensures Stable()
      ensures Turn(old(View()), View(), {t}) && Own(old(View()), View(), t)
      ensures FinishedOrAt(t, {AwaitShow, AttemptThrown})
      ensures t in old(audited) && t in audited
      ensures Fresh(View(), t) ==> Judged(old(View()), View(), t, declined, valid)
    {
      hide Good, Unreferenced, Ids, Turn, Own, ClosedWith, Fresh;
      ghost var start := View();
      StandsStill(t);
      var throws := Verdict();
      if throws {
        Suspend(t, AttemptThrown);
        return;
      }
      if declined {
        Discard(t, LlmSemanticDiscard);
        if t !in conts {
          ClosedAt(start, View(), t, Generated, LlmSemanticDiscard);
        }
      } else {
        ValidateOutput(t, valid);
      }
    }

    /**
     * The shared output validator: what it refuses for its form or content is
     * discarded; its last step finds the attempt stale or lets the reply be shown.
     */
    method ValidateOutput(t: TraceId, valid: bool)
      requires Attempting(t) && traceState[t] == Generated
      modifies this`attempt, this`displayTimer, this`conts, this`traceState, this`audited, this`refused,
        this`windowedComments, this`comments, this`attempts, this`clock, window`candidates, machine`activity
      ensures Stable()
      ensures Turn(old(View()), View(), {t}) && Own(old(View()), View(), t)
      ensures FinishedOrAt(t, {AwaitShow, AttemptThrown})
      ensures t in old(audited) && t in audited
      ensures Fresh(View(), t) ==> Judged(old(View()), View(), t, false, valid)
    {
      hide Good, Unreferenced, Ids, Turn, Own, ClosedWith, Fresh;
      ghost var start := View();
      StandsStill(t);
      if !valid {
        Discard(t, OutputInvalid);
        if t !in conts {
          ClosedAt(start, View(), t, Generated, OutputInvalid);
        }
        return;
      }
      var stale := OutputFreshness(t);
      ghost var checked := View();
      if stale.Some? {
        CancelStale(t, stale.value, start);
      } else {
        ShowGenerated(t);
        TurnOwnTrans(start, checked, View(), t);
      }
    }

    /** The overlay would not show the suggestion: the window starts anew. */
    method RefuseDisplay(t: TraceId)
      requires Attempting(t) && traceState[t] == DisplayReady
      modifies this`attempt, this`displayTimer, this`conts, this`traceState, this`audited, this`refused,
        this`windowedComments, this`comments, this`attempts, this`clock, window, machine`activity
      ensures Stable()
      ensures Turn(old(View()), View(), {t}) && Own(old(View()), View(), t)
      ensures FinishedOrAt(t, {AttemptThrown})
      ensures t in old(audited) && t in audited
      ensures if t in conts then conts[t] == AttemptThrown && audited[t] == old(audited)[t]
              else audited[t] == old(audited)[t] + [Entry(Some(DisplayReady), Discarded, SourceError)]
      ensures old(clock) <= clock
      ensures window.windowVersion == old(window.windowVersion) + 1
    {
      hide Good, Unreferenced, Ids, Turn, Own, ClosedWith;
      ghost var start := View();
      ResetForAttempt(t);
      ghost var emptied := View();
      Discard(t, SourceError);
      if t !in conts {
        ClosedAt(emptied, View(), t, DisplayReady, SourceError);
      }
      TurnOwnTrans(start, emptied, View(), t);
    }

    /** The window starts anew under a running attempt. */
    method ResetForAttempt(t: TraceId)
      requires Attempting(t)
      modifies this`traceState, this`audited, this`refused, this`windowedComments, window
      ensures Attempting(t) && traceState[t] == old(traceState)[t]
      ensures t in old(audited) && t in audited && audited[t] == old(audited)[t]
      ensures window.windowVersion == old(window.windowVersion) + 1
      ensures Turn(old(View()), View(), {t}) && Own(old(View()), View(), t)
    {
      hide Inv, Ledger, DistinctIds, Turn, Own, AllClosed, Agrees;
      StandsStill(t);
      ghost var start := View();
      ResetWindowAfterDisplay(t);
      OutsideRows(start, View(), t);
      OwnSame(start, View(), t);
      TurnOwn(start, View(), t);
    }

    /** The suggestion is on screen: its display is recorded before the duration is read. */
    method RecordDisplay(t: TraceId, hookThrows: bool)
      requires Attempting(t) && traceState[t] == DisplayReady
      modifies this`conts, this`traceState, this`audited, this`refused
      ensures Stable() && conts == old(conts)[t := if hookThrows then AttemptThrown else AwaitDuration]
      ensures t in old(audited) && t in audited
      ensures audited[t] == old(audited)[t] + [Entry(Some(DisplayReady), Displayed, OverlayRendered)]
      ensures Turn(old(View()), View(), {t}) && Own(old(View()), View(), t)
      ensures t in traceState && traceState[t] == Displayed
    {
      hide Good, Unreferenced, Ids, Turn, Own;
      ghost var start := View();
      AdvanceAttempt(t, DisplayReady, Displayed, OverlayRendered);
      ghost var shown := View();
      Suspend(t, if hookThrows then AttemptThrown else AwaitDuration);
      TurnOwnTrans(start, shown, View(), t);
    }

    /** What follows the overlay's answer, unless the attempt is stale by then. */
    method AfterShow(t: TraceId, refusal: bool, hookThrows: bool)
      requires Resumed(t) && (attempt == Some(t) ==> traceState[t] == DisplayReady)
      modifies this`attempt, this`displayTimer, this`conts, this`traceState, this`audited, this`refused,
        this`windowedComments, this`comments, this`attempts, this`clock, window, machine`activity
      ensures Stable()
      ensures old(abortRequested) ==> conts == old(conts) && unchanged(window)
      ensures Turn(old(View()), View(), {t}) && Own(old(View()), View(), t)
      ensures FinishedOrAt(t, if !refusal && !hookThrows then {AwaitDuration} else {AttemptThrown})
      ensures !refusal ==>
        || (t in traceState && Terminal(traceState[t]))
        || (&& attempt == Some(t) && t in old(audited) && t in audited
            && audited[t] == old(audited)[t] + [Entry(Some(DisplayReady), Displayed, OverlayRendered)])
      ensures !refusal ==> window.windowVersion == old(window.windowVersion)
      ensures old(clock) <= clock
      ensures var now := clock; old(Current(t, now)) && !refusal ==>
              && t in traceState && traceState[t] == Displayed && attempt == Some(t)
              && t in conts && conts[t] == if hookThrows then AttemptThrown else AwaitDuration
      ensures var now := clock; old(Current(t, now)) && refusal ==>
        && window.windowVersion == old(window.windowVersion) + 1 && t in old(audited) && t in audited
        && if t in conts then conts[t] == AttemptThrown && audited[t] == old(audited)[t]
           else audited[t] == old(audited)[t] + [Entry(Some(DisplayReady), Discarded, SourceError)]
      ensures refusal ==>
              window.windowVersion == old(window.windowVersion) + 1 || (t in traceState && Terminal(traceState[t]))
      ensures !refusal ==> (attempt == Some(t) <==> var now := clock; old(Current(t, now)))
      ensures AttemptClosedIfStale(old(View()), View(), t)
    {
      hide Good, Unreferenced, Ids, Turn, Own, ClosedWith, AttemptClosedIfStale;
      ghost var start := View();
      var stale := AttemptFreshness(t);
      ghost var checked := View();
      if stale.Some? {
        CancelStale(t, stale.value, start);
      } else {
        if refusal {
          RefuseDisplay(t);
        } else {
          RecordDisplay(t, hookThrows);
        }
        TurnOwnTrans(start, checked, View(), t);
      }
      ClosedOnAttemptVerdict(start, checked, View(), t);
    }

    /** The overlay has answered. */
    method ResumeShow(t: TraceId, outcome: ShowOutcome)
      requires Stable() && t in conts && conts[t] == AwaitShow
      modifies this`attempt, this`displayTimer, this`conts, this`traceState, this`audited, this`refused,
        this`windowedComments, this`comments, this`attempts, this`clock, window, machine`activity
      ensures Stable()
      ensures old(abortRequested) ==> Spent(old(conts), conts, t) && unchanged(window)
      ensures Turn(old(View()), View(), {t}) && Own(old(View()), View(), t)
      ensures outcome.ShowRejected? ==> conts == old(conts)[t := AttemptThrown] && audited == old(audited)
      ensures FinishedOrAt(t, if outcome.Shown? && !outcome.hookThrows then {AwaitDuration} else {AttemptThrown})
      ensures outcome.Shown? ==>
        || (t in traceState && Terminal(traceState[t]))
        || (&& attempt == Some(t) && t in old(audited) && t in audited
            && audited[t] == old(audited)[t] + [Entry(Some(DisplayReady), Displayed, OverlayRendered)])
      ensures !outcome.Refused? ==> window.windowVersion == old(window.windowVersion)
      ensures old(clock) <= clock
      ensures t in old(attempts)
      ensures var now := clock; old(Current(t, now)) && outcome.Shown? ==>
              && t in traceState && traceState[t] == Displayed && attempt == Some(t)
              && t in conts && conts[t] == if outcome.hookThrows then AttemptThrown else AwaitDuration
      ensures var now := clock; old(Current(t, now)) && outcome.Refused? ==>
        && window.windowVersion == old(window.windowVersion) + 1 && t in old(audited) && t in audited
        && if t in conts then conts[t] == AttemptThrown && audited[t] == old(audited)[t]
           else audited[t] == old(audited)[t] + [Entry(Some(DisplayReady), Discarded, SourceError)]
      ensures outcome.Refused? ==>
              window.windowVersion == old(window.windowVersion) + 1 || (t in traceState && Terminal(traceState[t]))
      ensures outcome.Shown? ==> (attempt == Some(t) <==> var now := clock; old(Current(t, now)))
      ensures !outcome.ShowRejected? ==> AttemptClosedIfStale(old(View()), View(), t)
    {
      hide Good, Unreferenced, Ids, Turn, Own, ClosedWith, AttemptClosedIfStale, Current;
      if outcome.ShowRejected? {
        Reject(t);
        return;
      }
      ghost var start := View();
      Take(t);
      ghost var taken := View();
      AfterShow(t, outcome.Refused?, outcome.Shown? && outcome.hookThrows);
      TurnOwnTrans(start, taken, View(), t);
      StaleSinceTaken(start, taken, View(), t);
    }

    /** The display duration has been read: the display timer is armed. */
    method ResumeDuration(t: TraceId, rejected: bool)
      requires Stable() && t in conts && conts[t] == AwaitDuration
      modifies this`conts, this`displayTimer
      ensures Stable()
      ensures old(abortRequested) ==> Spent(old(conts), conts, t) && unchanged(window)
      ensures rejected ==> conts == old(conts)[t := AttemptThrown]
      ensures !rejected ==> conts == old(conts) - {t}
      ensures displayTimer == if !rejected && attempt == Some(t) then Some(t) else old(displayTimer)
      ensures Turn(old(View()), View(), {t}) && Own(old(View()), View(), t)
    {
      hide Good, Unreferenced, Ids, Turn, Own, ClosedWith;
      if rejected {
        Reject(t);
        return;
      }
      ghost var start := View();
      Take(t);
      ghost var taken := View();
      if attempt == Some(t) {
        ArmTimer(t);
      } else {
        DropResumed(t);
      }
      TurnOwnTrans(start, taken, View(), t);
    }

    /** The displayed trace waits for its timer. */
    method ArmTimer(t: TraceId)
      requires Attempting(t) && traceState[t] == Displayed
      modifies this`displayTimer
      ensures Stable() && displayTimer == Some(t)
      ensures Turn(old(View()), View(), {t}) && Own(old(View()), View(), t)
    {
      hide Inv, Ledger, Ids, DistinctIds, Turn, Agrees, IsPath;
      ghost var start := View();
      ParkTimer(start, t);
      displayTimer := Some(t);
      TurnSame(start, View(), {t});
      HandKnown(start, {t}, t);
      OwnSame(start, View(), t);
    }

    /** A comment's retrieval was rejected before it reached the window. */
    method HandleSearchError(t: TraceId)
      requires Stable() && t in conts && conts[t] == SearchThrown
      modifies this`attempt, this`displayTimer, this`conts, this`traceState, this`audited, this`refused,
        this`windowedComments, this`comments, this`attempts, this`clock, window`candidates, machine`activity
      ensures Stable()
      ensures old(abortRequested) ==> conts == old(conts) - {t} && unchanged(window)
      ensures Turn(old(View()), View(), {t})
      ensures ClosedWith(old(View()), View(), t, PipelineError) && t !in conts && attempt != Some(t)
      ensures old(attempt).Some? ==> attempt == old(attempt)
      ensures old(clock) <= clock
    {
      hide Inv, Ledger, Ids, DistinctIds, ClosedWith, Turn, FinishedKept;
      ghost var start := View();
      TakeHeld(t);
      ghost var held := View();
      CloseHeld(t);
      TurnTrans(start, held, View(), {t});
      ClosedSinceTaken(start, held, View(), t, PipelineError);
    }

    /** The rejected retrieval's trace is closed; a free mutex is offered to the next candidate. */
    method CloseHeld(t: TraceId)
      requires Holding(t)
      modifies this`attempt, this`displayTimer, this`conts, this`traceState, this`audited, this`refused,
        this`windowedComments, this`comments, this`attempts, this`clock, window`candidates, machine`activity
      ensures Stable()
      ensures old(abortRequested) ==> conts == old(conts) && unchanged(window)
      ensures Turn(old(View()), View(), {t})
      ensures ClosedWith(old(View()), View(), t, PipelineError) && t !in conts && attempt != Some(t)
      ensures old(attempt).Some? ==> attempt == old(attempt)
      ensures old(clock) <= clock
    {
      hide Inv, Ledger, Ids, DistinctIds, ClosedWith, Turn, FinishedKept, IsPath;
      ghost var start := View();
      HandKnown(start, {t}, t);
      CloseChain(t, PipelineError, {t});
      ghost var closed := View();
      TurnOfTrace(start, closed, t);
      if attempt == None {
        ClearAttempt(t);
      } else {
        DropLoose(View(), t);
        TurnSame(closed, View(), {t});
      }
      TurnTrans(start, closed, View(), {t});
      TurnFinished(closed, View(), {t});
      StaysClosed(start, closed, View(), t, PipelineError);
      ClosedIsFinished(start, View(), t, PipelineError);
      if !abortRequested {
        FinishedHasNoCont(View(), t);
      }
    }

    /**
     * The catch handler of a rejected pipeline promise. A trace already displayed
     * is hidden without releasing the mutex; any other is closed where it stands.
     */
    method HandlePipelineError(t: TraceId)
      requires Stable() && t in conts && (conts[t] == SearchThrown || conts[t] == AttemptThrown)
      modifies this`attempt, this`displayTimer, this`conts, this`traceState, this`audited, this`refused,
        this`windowedComments, this`comments, this`attempts, this`clock, window`candidates, machine`activity
      ensures Stable()
      ensures old(abortRequested) ==> conts == old(conts) - {t} && unchanged(window)
      ensures ClosedWith(old(View()), View(), t, PipelineError) && t !in conts
      ensures attempt == Some(t) <==> old(conts[t] == AttemptThrown && traceState[t] == Displayed && attempt == Some(t))
      ensures attempt == Some(t) ==> Wedged(t) && displayTimer == None
      ensures old(attempt).Some? && old(attempt) != Some(t) ==> attempt == old(attempt)
      ensures Turn(old(View()), View(), {t})
      ensures old(clock) <= clock && (attempt == Some(t) ==> clock == old(clock))
    {
      hide Good, Ids, Turn, ClosedWith;
      if conts[t] == SearchThrown {
        HandleSearchError(t);
        return;
      }
      HandleAttemptError(t);
    }

    /** The attempt holds the mutex though its trace is finished and nothing of it is left to run. */
    predicate Wedged(t: TraceId)
      reads this
    {
      attempt == Some(t) && t in traceState && traceState[t] == Hidden
    }

    /** The catch handler of the attempt's own promise. */
    method HandleAttemptError(t: TraceId)
      requires Stable() && t in conts && conts[t] == AttemptThrown
      modifies this`attempt, this`displayTimer, this`conts, this`traceState, this`audited, this`refused,
        this`windowedComments, this`comments, this`attempts, this`clock, window`candidates, machine`activity
      ensures Stable()
      ensures old(abortRequested) ==> conts == old(conts) - {t} && unchanged(window)
      ensures Turn(old(View()), View(), {t})
      ensures t in old(traceState) && ClosedWith(old(View()), View(), t, PipelineError) && t !in conts
      ensures attempt == Some(t) <==> old(traceState[t] == Displayed && attempt == Some(t))
      ensures attempt == Some(t) ==> Wedged(t) && displayTimer == None
      ensures old(attempt).Some? ==> old(attempt) == Some(t)
      ensures old(clock) <= clock && (attempt == Some(t) ==> clock == old(clock))
    {
      hide Good, Unreferenced, Ids, Turn, ClosedWith, StageState;
      ghost var start := View();
      Take(t);
      ghost var taken := View();
      var last := traceState[t];
      if Terminal(last) {
        DropResumed(t);
      } else if last == Displayed {
        HideDisplayed(t);
      } else {
        CancelCurrent(t, PipelineError);
      }
      TurnTrans(start, taken, View(), {t});
      ClosedSinceTaken(start, taken, View(), t, PipelineError);
    }

    /** The aborted attempt's continuation has nothing left to do. */
    method DropResumed(t: TraceId)
      requires Resumed(t) && attempt != Some(t)
      ensures Stable() && Turn(View(), View(), {t}) && ClosedWith(View(), View(), t, PipelineError)
      ensures Own(View(), View(), t)
    {
      hide Inv, Ledger, Ids, DistinctIds, Turn, ClosedWith, Agrees, IsPath;
      HandKnown(View(), {t}, t);
      ClosedAlready(View(), t, PipelineError);
      TurnSame(View(), View(), {t});
      OwnSame(View(), View(), t);
      DropLoose(View(), t);
    }

    /** A displayed trace whose step failed is hidden; the mutex stays taken. */
    method HideDisplayed(t: TraceId)
      requires Attempting(t) && traceState[t] == Displayed
      modifies this`audited, this`traceState, this`refused
      ensures Stable() && t in traceState && traceState[t] == Hidden
      ensures ClosedWith(old(View()), View(), t, PipelineError)
      ensures Turn(old(View()), View(), {t})
    {
      hide Inv, Ledger, Ids, DistinctIds, Turn, FinishedKept, Agrees, IsPath;
      ghost var start := View();
      HandKnown(start, {t}, t);
      Advance(t, Displayed, Hidden, DisplayDurationElapsed, {t});
      ClosedByHiding(start, View(), t, PipelineError);
      TurnOfTrace(start, View(), t);
      ParkHidden(View(), t);
    }

    // ------------------------------------------------------- backlog and display

    /** Closes the traces of a list, one by one. */
    method CloseEach(ids: seq<TraceId>, reason: Reason, ghost closing: set<TraceId>)
      requires Inv(View(), closing) && closing == Elements(ids)
      modifies this`audited, this`traceState, this`refused
      ensures Inv(View(), closing)
      ensures OnlyTraces(old(View()), View(), closing) && AllClosed(old(View()), View(), closing, reason)
      ensures FinishedKept(old(View()), View())
    {
      hide Inv, Ids, OnlyTraces, AllClosed, FinishedKept, ClosedWith, IsPath;
      ghost var start := View();
      ghost var done := {};
      NoneClosed(start, reason);
      FinishedSame(start, start);
      for i := 0 to |ids|
        invariant Inv(View(), closing) && done == Elements(ids[..i])
        invariant OnlyTraces(start, View(), done) && AllClosed(start, View(), done, reason)
        invariant FinishedKept(start, View())
      {
        assert ids[..i + 1] == ids[..i] + [ids[i]];
        ghost var before := View();
        HandKnown(before, closing, ids[i]);
        CloseChain(ids[i], reason, closing);
        CloseOneMore(start, before, View(), View(), done, ids[i], reason);
        FinishedTrans(start, before, View());
        done := done + {ids[i]};
      }
      assert ids[..|ids|] == ids;
    }

    /** Closes every queued comment's trace. */
    method ClosePendingQueue(reason: Reason)
      requires Good({})
      modifies this`audited, this`traceState, this`refused, this`pendingQueue, this`left
      ensures Good({}) && pendingQueue == []
      ensures OnlyTraces(old(View()), View().(queue := old(pendingQueue)), Elements(old(pendingQueue)))
      ensures AllClosed(old(View()), View(), Elements(old(pendingQueue)), reason)
      ensures FinishedKept(old(View()), View())
      ensures left == old(left) + (map t | t in old(pendingQueue) :: ClosedOut) && BooksGrow(old(Books()), Books())
    {
      hide Inv, Ids, DistinctIds, OnlyTraces, AllClosed, FinishedKept, Unreferenced, Ledger, BooksGrow, Agrees;
      ghost var start := View();
      ghost var closing := Elements(pendingQueue);
      TakeQueue(View(), closing);
      CloseEach(pendingQueue, reason, closing);
      ghost var closed := View();
      ClosedAreFinished(start, closed, closing, reason);
      StandUnqueued(start, closed, closing);
      LeaveClosed(closing);
      FinishedSame(closed, View());
      FinishedTrans(start, closed, View());
      AllStayClosed(start, closed, View(), closing, reason);
    }

    /** The queued comments, whose traces are closed, leave the backlog. */
    method LeaveClosed(ghost closing: set<TraceId>)
      requires window.Valid() && machine.Valid() && Inv(View(), closing) && Agrees()
      requires Ledger(pendingQueue, enqueued, left, promotions, nextTrace) && closing == Elements(pendingQueue)
      requires forall x | x in closing ::
        x in traceState && Terminal(traceState[x]) && Unreferenced(View().(queue := []), x)
      modifies this`pendingQueue, this`left
      ensures Good({}) && pendingQueue == [] && View() == old(View()).(queue := [])
      ensures left == old(left) + (map t | t in old(pendingQueue) :: ClosedOut) && BooksGrow(old(Books()), Books())
    {
      hide Inv, Ids, DistinctIds, Unreferenced, Ledger, BooksGrow, Agrees;
      LedgerCloseAll(pendingQueue, enqueued, left, promotions, nextTrace);
      ghost var out := map t | t in pendingQueue :: ClosedOut;
      QueuedHaveNotLeft(pendingQueue, closing, Books(), nextTrace, out);
      LeaveQueue(View(), closing, []);
      left := left + out;
      pendingQueue := [];
    }

    /** The display window has ended: hide, reset the window, take the next candidate or queued comment. */
    method FinishDisplay() returns (ghost at: int)
      requires Stable() && displayTimer.Some?
      modifies this`attempt, this`displayTimer, this`conts, this`traceState, this`audited, this`refused,
        this`windowedComments, this`comments, this`attempts, this`clock, this`pendingQueue, this`left, this`promotions,
        window, machine`activity
      ensures Stable() && attempt == None && displayTimer == None && old(clock) <= at <= clock
      ensures window.candidates == [] && window.windowVersion == old(window.windowVersion) + 1
      ensures AllClosed(old(View()), View(), old(Ids(window.candidates)), Reason.WindowEvicted)
      ensures Drained(old(View()), old(promotions), at)
      ensures FinishedKept(old(View()), View()) && BooksGrow(old(Books()), Books())
      ensures old(displayTimer.value) in old(audited) && old(displayTimer.value) in audited
      ensures audited[old(displayTimer.value)]
           == old(audited)[old(displayTimer.value)] + [Entry(Some(Displayed), Hidden, DisplayDurationElapsed)]
    {
      hide Stable, Ids, FinishedKept, Turn, BooksGrow, AllClosed, Drained;
      ghost var start := View();
      StableKnown();
      ghost var t := attempt.value;
      LeaveDisplay();
      ghost var released := View();
      at := DrainQueue();
      DisplayEnded(start, released, t, old(promotions), at);
    }

    /** The display is over: its trace is hidden, the window emptied and the mutex free. */
    method LeaveDisplay()
      requires Stable() && displayTimer.Some? && displayTimer == attempt
      modifies this`attempt, this`displayTimer, this`conts, this`traceState, this`audited, this`refused,
        this`windowedComments, this`comments, this`attempts, this`clock, window, machine`activity
      ensures Stable() && attempt == None && old(clock) <= clock
      ensures window.candidates == [] && window.windowVersion == old(window.windowVersion) + 1
      ensures Turn(old(View()), View(), {old(attempt).value})
      ensures AllClosed(old(View()), View(), old(Ids(window.candidates)), Reason.WindowEvicted)
      ensures old(attempt).value in traceState && Terminal(traceState[old(attempt).value])
      ensures old(attempt).value in old(audited) && old(attempt).value in audited
      ensures audited[old(attempt).value]
           == old(audited)[old(attempt).value] + [Entry(Some(Displayed), Hidden, DisplayDurationElapsed)]
    {
      hide Good, Ids, FinishedKept, Turn, AllClosed;
      ghost var start := View();
      var t := HideShown();
      ghost var emptied := View();
      ClearAttempt(t);
      TurnTrans(start, emptied, View(), {t});
      TurnFinished(emptied, View(), {t});
      StillFinished(emptied, View(), t);
      AllStayClosed(start, emptied, View(), start.windowIds, Reason.WindowEvicted);
    }

    /** A drain after the display has ended is a drain of the backlog as it stood before. */
    lemma DrainedSince(start: State, released: State, t: TraceId, promoted: seq<TraceId>, at: int)
      requires Inv(start, {}) && start.attempt == Some(t) && Turn(start, released, {t}) && released.queue == start.queue
      requires Drained(released, promoted, at)
      ensures Drained(start, promoted, at)
    {
      hide Inv, Turn, ClosedWith, Without;
      if frozenQueueing.Some? && frozenQueueing.value.enabled {
        var timeout := frozenQueueing.value.timeoutMs;
        var overdue := Overdue(start.queue, start.comments, at, timeout);
        QueueSpared(start, released, t, at, timeout);
        QueueClosedSince(start, released, View(), t, overdue, QueueTimeout);
      }
    }

    /** What held when the display was left still holds after the drain. */
    lemma DisplayEnded(start: State, released: State, t: TraceId, promoted: seq<TraceId>, at: int)
      requires Inv(start, {}) && start.attempt == Some(t) && Turn(start, released, {t}) && released.queue == start.queue
      requires t in released.traceState && t in released.chains && Terminal(released.traceState[t])
      requires AllClosed(start, released, start.windowIds, Reason.WindowEvicted)
      requires FinishedKept(released, View()) && Drained(released, promoted, at)
      ensures FinishedKept(start, View()) && Drained(start, promoted, at)
      ensures AllClosed(start, View(), start.windowIds, Reason.WindowEvicted)
      ensures t in audited && audited[t] == released.chains[t]
    {
      hide Inv, Ids, FinishedKept, Turn, AllClosed, Drained;
      TurnFinished(start, released, {t});
      FinishedTrans(start, released, View());
      StillFinished(released, View(), t);
      AllStayClosed(start, released, View(), start.windowIds, Reason.WindowEvicted);
      DrainedSince(start, released, t, promoted, at);
    }

    lemma StableKnown()
      requires Stable()
      ensures Inv(View(), {}) && (displayTimer.Some? ==> displayTimer == attempt)
      ensures attempt == None ==> displayTimer == None
    {
    }

    /** The displayed trace is hidden and the window starts anew. */
    method HideShown() returns (t: TraceId)
      requires Stable() && displayTimer.Some?
      modifies this`audited, this`traceState, this`refused, this`windowedComments, window
      ensures Some(t) == old(displayTimer) && Good({t}) && t in traceState && traceState[t] == Hidden
      ensures t !in pendingQueue && t !in Ids(window.candidates) && t !in windowedComments
      ensures attempt == Some(t) && t !in conts
      ensures window.candidates == [] && window.windowVersion == old(window.windowVersion) + 1
      ensures t in old(audited) && t in audited
      ensures audited[t] == old(audited)[t] + [Entry(Some(Displayed), Hidden, DisplayDurationElapsed)]
      ensures Turn(old(View()), View(), {t})
      ensures AllClosed(old(View()), View(), old(Ids(window.candidates)), Reason.WindowEvicted)
    {
      hide Inv, Ledger, DistinctIds, FinishedKept, Turn, IsPath, AllClosed, Agrees;
      ghost var start := View();
      TimerIsCurrent(start);
      t := attempt.value;
      TakeCurrent(start, t);
      HandKnown(start, {t}, t);
      Advance(t, Displayed, Hidden, DisplayDurationElapsed, {t});
      ghost var hidden := View();
      TurnOfTrace(start, hidden, t);
      ResetWindowAfterDisplay(t);
      TurnFinished(hidden, View(), {});
      StillFinished(hidden, View(), t);
      TurnOwn(hidden, View(), t);
      TurnTrans(start, hidden, View(), {t});
      AllClosedAfter(start, hidden, View(), t, start.windowIds, Reason.WindowEvicted);
    }

    /** Expires the stale queued comments and promotes the oldest of the others. */
    method DrainQueue() returns (ghost at: int)
      requires Stable()
      modifies this`attempt, this`displayTimer, this`conts, this`traceState, this`audited, this`refused,
        this`windowedComments, this`comments, this`attempts, this`clock, this`pendingQueue, this`left, this`promotions,
        window`candidates, machine`activity
      ensures Stable() && old(clock) <= at <= clock
      ensures FinishedKept(old(View()), View()) && BooksGrow(old(Books()), Books())
      ensures old(window.candidates) == [] ==> window.candidates == [] && attempt == old(attempt)
      ensures Drained(old(View()), old(promotions), at)
      ensures attempt == None ==> displayTimer == None
    {
      hide Good, Ids, FinishedKept, BooksGrow, Drained;
      at := clock;
      if frozenQueueing == None || !frozenQueueing.value.enabled || |pendingQueue| == 0 {
        FinishedSame(View(), View());
        NothingEntered(Books());
        NothingToDrain(at);
      } else {
        var now := Tick();
        at := now;
        DrainLater(now, old(View()));
      }
      StableKnown();
    }

    /** Drains the backlog a moment after `start`. */
    method DrainLater(now: int, ghost start: State)
      requires Stable() && frozenQueueing.Some? && frozenQueueing.value.enabled
      requires View() == start.(clock := clock)
      modifies this`attempt, this`displayTimer, this`conts, this`traceState, this`audited, this`refused,
        this`windowedComments, this`comments, this`attempts, this`clock, this`pendingQueue, this`left, this`promotions,
        window`candidates, machine`activity
      ensures Stable() && old(clock) <= clock
      ensures FinishedKept(start, View()) && BooksGrow(old(Books()), Books())
      ensures old(window.candidates) == [] ==> window.candidates == [] && attempt == old(attempt)
      ensures Drained(start, old(promotions), now)
    {
      hide Good, Ids, FinishedKept, BooksGrow, Drained;
      ghost var ticked := View();
      DrainAt(now);
      FinishedSame(start, ticked);
      FinishedTrans(start, ticked, View());
      DrainedTicked(start, ticked, old(promotions), now);
    }

    lemma NothingToDrain(at: int)
      requires frozenQueueing == None || !frozenQueueing.value.enabled || |pendingQueue| == 0
      ensures Drained(View(), promotions, at)
    {
    }

    /** The backlog and its comments are the same a moment later. */
    lemma DrainedTicked(start: State, ticked: State, promoted: seq<TraceId>, at: int)
      requires ticked == start.(clock := ticked.clock) && Drained(ticked, promoted, at)
      ensures Drained(start, promoted, at)
    {
      hide ClosedWith, Without, Overdue;
      if frozenQueueing.Some? && frozenQueueing.value.enabled {
        AllClosedSince(start, ticked, View(), Overdue(start.queue, start.comments, at, frozenQueueing.value.timeoutMs),
                       QueueTimeout);
      }
    }

    /** A later reading of the clock between two steps. */
    method Tick() returns (now: int)
      requires Stable()
      modifies this`clock
      ensures Stable() && now == clock && old(clock) <= now && View() == old(View()).(clock := clock)
    {
      hide Inv, Ledger, Ids, DistinctIds, Agrees;
      ghost var start := View();
      now := Now();
      Later(start, View(), {});
    }

    /** Expires what is overdue and promotes the oldest of the rest. */
    method DrainAt(now: int)
      requires Stable() && frozenQueueing.Some? && frozenQueueing.value.enabled
      modifies this`attempt, this`displayTimer, this`conts, this`traceState, this`audited, this`refused,
        this`windowedComments, this`comments, this`attempts, this`clock, this`pendingQueue, this`left, this`promotions,
        window`candidates, machine`activity
      ensures Stable() && old(clock) <= clock
      ensures FinishedKept(old(View()), View()) && BooksGrow(old(Books()), Books())
      ensures old(window.candidates) == [] ==> window.candidates == [] && attempt == old(attempt)
      ensures Drained(old(View()), old(promotions), now)
    {
      hide Good, Ids, FinishedKept, BooksGrow, AllClosed, Without, Overdue;
      ghost var start, books := View(), Books();
      ExpireQueued(now);
      if pendingQueue == [] {
        return;
      }
      ghost var expired, entered := View(), Books();
      PromoteOldest(now);
      FinishedTrans(start, expired, View());
      BooksTrans(books, entered, Books());
      AllStayClosed(start, expired, View(), Overdue(start.queue, start.comments, now, frozenQueueing.value.timeoutMs),
                    QueueTimeout);
    }

    /**
     * At the given time the overdue comments were closed, and the first of the
     * others, if any, promoted: anchored anew, and finished or awaiting its search.
     */
    ghost predicate Drained(s: State, promoted: seq<TraceId>, at: int)
      reads this, window
    {
      if frozenQueueing == None || !frozenQueueing.value.enabled then
        pendingQueue == s.queue && promotions == promoted
      else
        var overdue := Overdue(s.queue, s.comments, at, frozenQueueing.value.timeoutMs);
        var live := Without(s.queue, overdue);
        && AllClosed(s, View(), overdue, QueueTimeout)
        && if live == [] then pendingQueue == [] && promotions == promoted
           else
             && pendingQueue == live[1..] && promotions == promoted + [live[0]]
             && live[0] in comments && comments[live[0]].received == at
             && comments[live[0]].windowVersion == window.windowVersion
             && FinishedOrAt(live[0], {Searching})
    }

    /** Closes the queued comments that have waited longer than the timeout. */
    method ExpireQueued(now: int)
      requires Stable() && frozenQueueing.Some?
      modifies this`audited, this`traceState, this`refused, this`pendingQueue, this`left
      ensures Stable()
      ensures forall t | t in old(pendingQueue) :: t in comments
      ensures
        var expired := Overdue(old(pendingQueue), comments, now, frozenQueueing.value.timeoutMs);
        pendingQueue == Without(old(pendingQueue), expired) && AllClosed(old(View()), View(), expired, QueueTimeout)
      ensures forall t :: t in pendingQueue <==>
        t in old(pendingQueue) && now - comments[t].received <= frozenQueueing.value.timeoutMs
      ensures FinishedKept(old(View()), View()) && BooksGrow(old(Books()), Books())
      ensures promotions == old(promotions)
    {
      hide Inv, Ledger, Ids, DistinctIds, Without, Unreferenced, OnlyTraces, AllClosed, FinishedKept, BooksGrow, Agrees;
      var timeout := frozenQueueing.value.timeoutMs;
      ghost var start := View();
      QueueKnown(start);
      ghost var expired := Overdue(pendingQueue, comments, now, timeout);
      TakeQueue(start, expired);
      var remaining := CloseExpired(now, timeout, start, expired);
      LeaveTimedOut(now, timeout, remaining, start, expired);
    }

    /** The comments closed as expired leave the backlog. */
    method LeaveTimedOut(now: int, timeout: int, remaining: seq<TraceId>, ghost start: State,
                         ghost expired: set<TraceId>)
      requires window.Valid() && machine.Valid() && Ledger(pendingQueue, enqueued, left, promotions, nextTrace)
      requires Inv(start, {}) && Inv(View(), expired) && Agrees() && (abortRequested ==> attempt == None)
      requires start.queue == pendingQueue && start.windowed == windowedComments
      requires OnlyTraces(start, View(), expired) && AllClosed(start, View(), expired, QueueTimeout)
      requires FinishedKept(start, View()) && remaining == Without(pendingQueue, expired)
      requires forall t | t in expired :: t in pendingQueue && t in comments && now - comments[t].received > timeout
      modifies this`pendingQueue, this`left
      ensures Stable()
      ensures forall t :: t in pendingQueue <==> t in old(pendingQueue) && t !in expired
      ensures AllClosed(start, View(), expired, QueueTimeout)
      ensures FinishedKept(start, View()) && BooksGrow(old(Books()), Books())
      ensures pendingQueue == remaining
    {
      hide Inv, Ledger, Ids, DistinctIds, Without, Unreferenced, TimeOuts, OnlyTraces, AllClosed, FinishedKept,
        BooksGrow, Agrees;
      ghost var closed := View();
      ClosedAreFinished(start, closed, expired, QueueTimeout);
      OnlyBooks(start, closed, expired);
      LeaveExpired(start, closed, expired);
      LedgerExpire(pendingQueue, expired, comments, now, timeout, enqueued, left, promotions, nextTrace);
      TimeOutsOf(expired, comments, now, timeout);
      QueuedHaveNotLeft(pendingQueue, expired, Books(), nextTrace, TimeOuts(expired, comments, now, timeout));
      left := left + TimeOuts(expired, comments, now, timeout);
      pendingQueue := remaining;
      FinishedSame(closed, View());
      FinishedTrans(start, closed, View());
      AllStayClosed(start, closed, View(), expired, QueueTimeout);
    }

    /** The loop of the drain: closes each expired comment and keeps the others in order. */
    method CloseExpired(now: int, timeout: int, ghost start: State, ghost expired: set<TraceId>)
      returns (remaining: seq<TraceId>)
      requires View() == start && Inv(start, expired)
      requires forall t | t in pendingQueue :: t in comments && t in traceState
      requires forall t | t in pendingQueue :: t in expired <==> now - comments[t].received > timeout
      requires forall t | t in expired :: t in pendingQueue
      modifies this`audited, this`traceState, this`refused
      ensures OnlyTraces(start, View(), expired) && AllClosed(start, View(), expired, QueueTimeout)
      ensures windowedComments == old(windowedComments) && Inv(View(), expired)
      ensures remaining == Without(pendingQueue, expired)
      ensures FinishedKept(start, View())
    {
      hide Inv, Without, Ids, ClosedWith, FinishedKept, OnlyTraces, AllClosed, Agrees, IsPath;
      remaining := [];
      ghost var done := {};
      FinishedSame(start, start);
      NoneClosed(start, QueueTimeout);
      WithoutNothing(expired);
      assert pendingQueue[..0] == [];
      for i := 0 to |pendingQueue|
        invariant Inv(View(), expired) && done == Elements(pendingQueue[..i]) * expired
        invariant OnlyTraces(start, View(), done) && AllClosed(start, View(), done, QueueTimeout)
        invariant remaining == Without(pendingQueue[..i], expired)
        invariant FinishedKept(start, View())
      {
        var t := pendingQueue[i];
        WithoutStep(pendingQueue, i, expired);
        assert pendingQueue[..i + 1] == pendingQueue[..i] + [t];
        if now - comments[t].received > timeout {
          ghost var before := View();
          HandKnown(before, expired, t);
          CloseChain(t, QueueTimeout, expired);
          CloseOneMore(start, before, View(), View(), done, t, QueueTimeout);
          FinishedTrans(start, before, View());
          done := done + {t};
        } else {
          remaining := remaining + [t];
        }
      }
      assert pendingQueue[..|pendingQueue|] == pendingQueue;
      assert done == expired;
    }

    /** The oldest queued comment leaves the backlog, re-anchored to now and this window. */
    method TakeOldest(now: int) returns (t: TraceId)
      requires Stable() && frozenQueueing.Some? && pendingQueue != []
      requires pendingQueue[0] in comments && now - comments[pendingQueue[0]].received <= frozenQueueing.value.timeoutMs
      modifies this`comments, this`pendingQueue, this`left, this`promotions
      ensures Holding(t) && traceState[t] == Normalized
      ensures old(pendingQueue) == [t] + pendingQueue && promotions == old(promotions) + [t]
      ensures t in old(comments)
      ensures comments == old(comments)[t := old(comments)[t].(windowVersion := window.windowVersion, received := now,
                                                               deadline := now + PreAttemptBudget())]
      ensures left == old(left)[t := Promoted(now - old(comments)[t].received, frozenQueueing.value.timeoutMs)]
      ensures BooksGrow(old(Books()), Books())
    {
      hide Good, Ids, Unreferenced, BooksGrow;
      t := LeaveFirst(now);
      var c := comments[t].(windowVersion := window.windowVersion, received := now,
                            deadline := now + PreAttemptBudget());
      AnchorHeld(t, c);
    }

    /** The head of the backlog leaves it in time. */
    method LeaveFirst(now: int) returns (t: TraceId)
      requires Stable() && frozenQueueing.Some? && pendingQueue != []
      requires pendingQueue[0] in comments && now - comments[pendingQueue[0]].received <= frozenQueueing.value.timeoutMs
      modifies this`pendingQueue, this`left, this`promotions
      ensures Holding(t) && traceState[t] == Normalized
      ensures old(pendingQueue) == [t] + pendingQueue && promotions == old(promotions) + [t]
      ensures left == old(left)[t := Promoted(now - comments[t].received, frozenQueueing.value.timeoutMs)]
      ensures BooksGrow(old(Books()), Books())
    {
      hide Inv, Ledger, Ids, DistinctIds, Unreferenced, BooksGrow, InTime, Agrees;
      t := pendingQueue[0];
      ghost var d := Promoted(now - comments[t].received, frozenQueueing.value.timeoutMs);
      PromotedInTime(d);
      LedgerPromote(pendingQueue, enqueued, left, promotions, nextTrace, d);
      PromotionIsNew(pendingQueue, Books(), nextTrace, d);
      Promote(View());
      ghost var taken := View().(queue := pendingQueue[1..]);
      left, promotions, pendingQueue := left[t := d], promotions + [t], pendingQueue[1..];
      assert View() == taken;
    }

    /** A comment in hand gets a new anchor. */
    method AnchorHeld(t: TraceId, c: Comment)
      requires Holding(t)
      modifies this`comments
      ensures Holding(t) && comments == old(comments)[t := c]
    {
      hide Inv, Ledger, Ids, DistinctIds;
      Reanchor(View(), t, c);
      comments := comments[t := c];
    }

    /** The oldest queued comment goes on to retrieval. */
    method PromoteOldest(now: int)
      requires Stable() && frozenQueueing.Some? && pendingQueue != []
      requires pendingQueue[0] in comments && now - comments[pendingQueue[0]].received <= frozenQueueing.value.timeoutMs
      modifies this`attempt, this`displayTimer, this`conts, this`traceState, this`audited, this`refused,
        this`windowedComments, this`comments, this`attempts, this`clock, this`pendingQueue, this`left, this`promotions,
        window`candidates, machine`activity
      ensures Stable()
      ensures pendingQueue == old(pendingQueue)[1..] && promotions == old(promotions) + [old(pendingQueue)[0]]
      ensures left == old(left)[old(pendingQueue)[0] :=
        Promoted(now - old(comments)[old(pendingQueue)[0]].received, frozenQueueing.value.timeoutMs)]
      ensures old(pendingQueue)[0] in comments && comments[old(pendingQueue)[0]].received == now
      ensures old(pendingQueue)[0] in old(comments)
      ensures comments[old(pendingQueue)[0]]
           == old(comments)[old(pendingQueue)[0]].(windowVersion := window.windowVersion, received := now,
                                                   deadline := now + PreAttemptBudget())
      ensures FinishedOrAt(old(pendingQueue)[0], {Searching})
      ensures FinishedKept(old(View()), View()) && BooksGrow(old(Books()), Books())
      ensures old(window.candidates) == [] ==> window.candidates == [] && attempt == old(attempt)
      ensures old(clock) <= clock
    {
      hide Good, Unreferenced, Ids, FinishedKept, Progress, BooksGrow;
      ghost var start := View();
      var t := TakeOldest(now);
      ghost var promoted := View();
      FinishedSame(start, promoted);
      ContinueFromNormalized(t);
      ProgressFinished(promoted, View(), {t});
      FinishedTrans(start, promoted, View());
    }

    // -------------------------------------------------------------- stop, start

    /** The in-flight attempt is flagged, its request aborted, and its trace closed. */
    method CancelAborted(t: TraceId, reason: Reason)
      requires Good({}) && attempt == Some(t) && abortRequested && pendingQueue == []
      modifies this`attempt, this`displayTimer, this`conts, this`traceState, this`audited, this`refused,
        this`windowedComments, this`comments, this`attempts, this`clock, window`candidates, machine`activity
      ensures Stable()
      ensures conts == old(conts) && unchanged(window) && attempt == None && displayTimer == None
      ensures FinishedKept(old(View()), View())
      ensures ClosedWith(old(View()), View(), t, reason)
      ensures t in attempts && attempts[t].aborted && attempts[t].cancelReason == reason
    {
      hide Inv, Ledger, Ids, DistinctIds, IsPath, FinishedKept, Turn, ClosedWith;
      ghost var start := View();
      TakeCurrent(View(), t);
      var a := attempts[t].(cancelReason := reason, aborted := true);
      Flag(View(), View().(attempts := attempts[t := a]));
      attempts := attempts[t := a];
      ghost var flagged := View();
      FinishedSame(start, flagged);
      TakeCurrent(View(), t);
      CancelAttempt(t, reason);
      TurnFinished(flagged, View(), {t});
      FinishedTrans(start, flagged, View());
      ClosedSinceTaken(start, flagged, View(), t, reason);
    }

    /** Cancels the in-flight attempt and closes the backlog. */
    method AbortAll(reason: Reason)
      requires Stable()
      modifies this`attempt, this`displayTimer, this`conts, this`traceState, this`audited, this`refused,
        this`windowedComments, this`comments, this`attempts, this`clock, this`pendingQueue, this`left,
        this`abortRequested, window`candidates, machine`activity
      ensures Stable()
      ensures abortRequested && attempt == None && displayTimer == None && pendingQueue == []
      ensures conts == old(conts) && unchanged(window)
      ensures FinishedKept(old(View()), View()) && BooksGrow(old(Books()), Books())
      ensures AllClosed(old(View()), View(), Elements(old(pendingQueue)), reason)
      ensures old(attempt).Some? ==>
        && ClosedWith(old(View()), View(), old(attempt).value, reason)
        && old(attempt).value in attempts && attempts[old(attempt).value].aborted
        && attempts[old(attempt).value].cancelReason == reason
    {
      hide Good, Ids, IsPath, FinishedKept, ClosedWith, AllClosed, BooksGrow;
      ghost var start := View();
      EmptyBacklog(reason);
      if attempt == None {
        return;
      }
      ghost var emptied := View();
      var t := attempt.value;
      CancelAborted(t, reason);
      FinishedTrans(start, emptied, View());
      AllStayClosed(start, emptied, View(), Elements(start.queue), reason);
      ClosedSince(start, emptied, View(), t, reason);
    }

    /** The abort is asked for and the backlog closed; the attempt in flight is not one of the queued. */
    method EmptyBacklog(reason: Reason)
      requires Stable()
      modifies this`abortRequested, this`traceState, this`audited, this`refused, this`pendingQueue, this`left
      ensures Good({}) && abortRequested && pendingQueue == []
      ensures attempt == None ==> displayTimer == None
      ensures attempt.Some? ==>
        && attempt.value in old(traceState) && attempt.value in traceState
        && traceState[attempt.value] == old(traceState)[attempt.value]
        && attempt.value in old(audited) && attempt.value in audited
        && audited[attempt.value] == old(audited)[attempt.value]
      ensures AllClosed(old(View()), View(), Elements(old(pendingQueue)), reason)
      ensures FinishedKept(old(View()), View()) && BooksGrow(old(Books()), Books())
    {
      hide Good, Ids, IsPath, FinishedKept, ClosedWith, AllClosed, OnlyTraces, BooksGrow;
      ghost var start := View();
      AskAbort();
      ghost var flagged := View();
      FinishedSame(start, flagged);
      ClosePendingQueue(reason);
      ghost var emptied := View();
      FinishedTrans(start, flagged, emptied);
      AllClosedSince(start, flagged, emptied, Elements(start.queue), reason);
      if attempt.Some? {
        OutsideKept(flagged, emptied.(queue := start.queue), Elements(start.queue), attempt.value);
      }
    }

    /** The abort is asked for; the attempt in flight is not one of the queued. */
    method AskAbort()
      requires Stable()
      modifies this`abortRequested
      ensures Good({}) && abortRequested && View() == old(View()).(abortRequested := true)
      ensures attempt == None ==> displayTimer == None
      ensures attempt.Some? ==>
        attempt.value in traceState && attempt.value in audited && attempt.value !in Elements(pendingQueue)
    {
      hide Inv, Ledger, Ids, DistinctIds, IsPath;
      if attempt.Some? {
        TakeCurrent(View(), attempt.value);
        HandKnown(View(), {attempt.value}, attempt.value);
      }
      TimerNeedsAttempt(View());
      Flag(View(), View().(abortRequested := true));
      abortRequested := true;
    }

    /** From here on every resumed continuation finds itself stale. */
    method StopTaking()
      requires Stable() && attempt == None
      modifies this`attempt, this`displayTimer, this`abortRequested, this`session
      ensures Stable() && session == None && attempt == None && displayTimer == None && abortRequested
    {
      hide Inv, Ledger, Ids, DistinctIds;
      TimerNeedsAttempt(View());
      displayTimer := None;
      Flag(View(), View().(session := None, abortRequested := true));
      session := None;
      attempt := None;
      abortRequested := true;
    }

    /** Ends the session; its only caller has just run `AbortAll`. */
    method EndSession()
      requires Stable() && attempt == None
      modifies this`attempt, this`displayTimer, this`traceState, this`audited, this`refused,
        this`windowedComments, this`pendingQueue, this`left, this`abortRequested, this`session, window`candidates
      ensures Stable() && Quiet(View())
      ensures conts == old(conts)
      ensures AllClosed(old(View()), View(), old(Ids(window.candidates)), Reason.WindowEvicted)
      ensures FinishedKept(old(View()), View()) && BooksGrow(old(Books()), Books())
    {
      hide Good, Ids, FinishedKept, AllClosed, OnlyTraces, BooksGrow;
      ghost var start := View();
      StopTaking();
      ghost var stopped := View();
      FinishedSame(start, stopped);
      EmptyWindow();
      ghost var emptied := View();
      FinishedTrans(start, stopped, emptied);
      AllClosedSince(start, stopped, emptied, start.windowIds, Reason.WindowEvicted);
      CloseBacklog(start, emptied);
    }

    /** The last of the session: its backlog is closed and the index of the window dropped. */
    method CloseBacklog(ghost start: State, ghost emptied: State)
      requires Stable() && View() == emptied && windowedComments == {} && window.candidates == []
      requires FinishedKept(start, emptied) && AllClosed(start, emptied, start.windowIds, Reason.WindowEvicted)
      modifies this`audited, this`traceState, this`refused, this`pendingQueue, this`left, this`windowedComments
      ensures Stable() && pendingQueue == []
      ensures FinishedKept(start, View()) && AllClosed(start, View(), start.windowIds, Reason.WindowEvicted)
      ensures BooksGrow(old(Books()), Books())
    {
      hide Inv, Ledger, DistinctIds, Ids, FinishedKept, AllClosed, OnlyTraces, BooksGrow, Agrees;
      ClosePendingQueue(StaleSession);
      FinishedTrans(start, emptied, View());
      AllStayClosed(start, emptied, View(), start.windowIds, Reason.WindowEvicted);
      ghost var closed := View();
      windowedComments := {};
      assert View() == closed;
    }

    /** Evicts every candidate. */
    method EmptyWindow()
      requires Good({})
      modifies this`traceState, this`audited, this`refused, this`windowedComments, window`candidates
      ensures Good({}) && window.candidates == [] && windowedComments == {} && Ids(window.candidates) == {}
      ensures FinishedKept(old(View()), View())
      ensures AllClosed(old(View()), View(), old(Ids(window.candidates)), Reason.WindowEvicted)
    {
      hide Inv, Ledger, DistinctIds, FinishedKept, Splits, AllClosed, OnlyTraces, Turn, Agrees;
      ghost var before := View();
      var evicted := window.Clear();
      assert Ids(window.candidates) == {};
      assert before.windowIds - {} == before.windowIds;
      CloseDropped(evicted, before, {});
      TurnFinished(before, View(), {});
      EmptyIndex(View());
    }

    /**
     * Starts a session. No continuation of an earlier session may be left; the
     * awaited configuration reads are the parameters.
     */
    method StartSession(sessionId: nat, queueing: Option<Queueing>)
      requires Stable() && attempt == None && conts == map[]
      modifies this`attempt, this`displayTimer, this`traceState, this`audited, this`refused, this`windowedComments,
        this`pendingQueue, this`left, this`abortRequested, this`session, this`seen, this`frozenQueueing,
        window`candidates
      ensures Stable()
      ensures session == Some(sessionId) && !abortRequested && attempt == None && displayTimer == None
      ensures pendingQueue == [] && window.candidates == [] && traceState == map[] && seen == []
      ensures frozenQueueing == queueing
      ensures AppendOnly(old(View()), View()) && BooksGrow(old(Books()), Books())
    {
      hide Good, Ids, AppendOnly, BooksGrow;
      ghost var start := View();
      FreezeQueueing(queueing);
      ghost var frozen := View();
      Reopen(sessionId);
      AppendTrans(start, frozen, View());
    }

    /** Without an attempt no display timer is armed. */
    method DropTimer()
      requires Stable() && attempt == None
      modifies this`displayTimer
      ensures Stable() && displayTimer == None && View() == old(View())
    {
      hide Inv, Ledger, Ids, DistinctIds, Agrees;
      TimerNeedsAttempt(View());
      displayTimer := None;
    }

    /** The queueing setting has been read: it is frozen, and the backlog of the last session closed. */
    method FreezeQueueing(queueing: Option<Queueing>)
      requires Stable() && attempt == None
      modifies this`displayTimer, this`traceState, this`audited, this`refused, this`pendingQueue, this`left,
        this`frozenQueueing
      ensures Stable() && displayTimer == None && pendingQueue == [] && frozenQueueing == queueing
      ensures AllClosed(old(View()), View(), Elements(old(pendingQueue)), StaleSession)
      ensures AppendOnly(old(View()), View()) && BooksGrow(old(Books()), Books())
    {
      hide Inv, Ledger, Ids, DistinctIds, Agrees, FinishedKept, AllClosed, OnlyTraces, BooksGrow, AppendOnly;
      ghost var start := View();
      DropTimer();
      frozenQueueing := queueing;
      assert View() == start;
      ClosePendingQueue(StaleSession);
      FinishedAppends(start, View());
    }

    /** The new session's fields, once the old backlog is closed. */
    method Reopen(sessionId: nat)
      requires Stable() && attempt == None && displayTimer == None && conts == map[] && pendingQueue == []
      modifies this`attempt, this`traceState, this`audited, this`refused, this`windowedComments,
        this`abortRequested, this`session, this`seen, window`candidates
      ensures Stable()
      ensures session == Some(sessionId) && !abortRequested && attempt == None
      ensures window.candidates == [] && traceState == map[] && seen == []
      ensures AppendOnly(old(View()), View())
    {
      hide Good, Ids, FinishedKept, AppendOnly, AllClosed;
      ghost var start := View();
      Unblock(sessionId);
      ghost var open := View();
      FinishedSame(start, open);
      EmptyWindow();
      FinishedTrans(start, open, View());
      FinishedAppends(start, View());
      ghost var emptied := View();
      ForgetTraces();
      SameRows(start, emptied, View());
    }

    /** The abort request is cleared for the new session. */
    method Unblock(sessionId: nat)
      requires Stable() && conts == map[] && attempt == None
      modifies this`attempt, this`abortRequested, this`session, this`seen
      ensures Stable() && session == Some(sessionId) && !abortRequested && attempt == None && seen == []
    {
      hide Inv, Ledger, Ids, DistinctIds;
      Rearm(View(), Some(sessionId));
      ghost var open := View().(session := Some(sessionId), abortRequested := false);
      session := Some(sessionId);
      seen := [];
      attempt := None;
      abortRequested := false;
      assert View() == open;
    }

    /** Nothing owns a trace any more, so the states of the old session are dropped. */
    method ForgetTraces()
      requires Stable() && attempt == None && conts == map[] && pendingQueue == [] && window.candidates == []
      modifies this`traceState, this`windowedComments
      ensures Stable() && traceState == map[]
    {
      hide Inv, Ledger, DistinctIds, Agrees;
      assert Ids(window.candidates) == {};
      Forget(View());
      traceState := map[];
      windowedComments := {};
    }

    // ---------------------------------------------------------------- whole runs

    /** Resumes whichever await `t` is suspended at, with any outcome. */
    method ResumeAny(t: TraceId)
      requires Stable() && t in conts
      modifies this`attempt, this`displayTimer, this`conts, this`traceState, this`audited, this`refused,
        this`windowedComments, this`comments, this`attempts, this`clock, window, machine`activity
      ensures Stable()
      ensures Turn(old(View()), View(), {t})
      ensures old(abortRequested) ==> Spent(old(conts), conts, t) && unchanged(window)
    {
      hide Good, Ids, Turn, Own, ClosedWith, ClosedIfStale, Answer;
      var a := Verdict();
      var b := Verdict();
      var c := Verdict();
      match conts[t] {
        case Searching =>
          var priority: real :| true;
          ResumeSearch(t, a, b, priority);
        case AwaitConfig => ResumeConfig(t, a, b, c);
        case AwaitKey => ResumeKey(t, a, b);
        case AwaitProvider =>
          var outcome: ProviderOutcome :| true;
          ResumeProvider(t, outcome);
        case AwaitShow =>
          var outcome: ShowOutcome :| true;
          ResumeShow(t, outcome);
        case AwaitDuration => ResumeDuration(t, a);
        case SearchThrown => HandlePipelineError(t);
        case AttemptThrown => HandlePipelineError(t);
      }
    }

    /** A comment arrives. */
    method CommentStep()
      requires Stable()
      modifies this, window, machine
      ensures Stable()
      ensures AppendOnly(old(View()), View()) && BooksGrow(old(Books()), Books())
      ensures forall t | old(Wedged(t)) ::
        Wedged(t) && t in old(audited) && t in audited && audited[t] == old(audited)[t]
      ensures promotions == old(promotions) && old(pendingQueue) <= pendingQueue
    {
      hide Inv, Ledger, Ids, DistinctIds, AppendOnly, BooksGrow, Progress, Entered;
      ghost var start := View();
      if attempt.Some? {
        MutexKnown(start, attempt.value);
      }
      var messageId: nat :| true;
      var received: int :| true;
      var blank := Verdict();
      HandleComment(messageId, received, blank);
      ProgressAppends(start, View(), {start.next});
      WedgeStays(start, View(), start.next);
    }

    /** Some continuation resumes. */
    method ContinuationStep()
      requires Stable() && conts != map[]
      modifies this, window, machine
      ensures Stable()
      ensures AppendOnly(old(View()), View()) && BooksGrow(old(Books()), Books())
      ensures forall t | old(Wedged(t)) ::
        Wedged(t) && t in old(audited) && t in audited && audited[t] == old(audited)[t]
      ensures promotions == old(promotions) && pendingQueue == old(pendingQueue)
    {
      hide Inv, Ledger, Ids, DistinctIds, AppendOnly, BooksGrow, Progress, Turn, Spent;
      ghost var start := View();
      NothingEntered(Books());
      if attempt.Some? {
        MutexKnown(start, attempt.value);
      }
      var t :| t in conts;
      ResumeAny(t);
      TurnProgress(start, View(), {t});
      ProgressAppends(start, View(), {t});
      WedgeStays(start, View(), t);
    }

    /** One arbitrary step of a service that is not being stopped, of any kind that is enabled. */
    method ServeStep()
      requires Stable()
      modifies this, window, machine
      ensures Stable()
      ensures AppendOnly(old(View()), View()) && BooksGrow(old(Books()), Books())
      ensures forall t | old(Wedged(t)) ::
        Wedged(t) && t in old(audited) && t in audited && audited[t] == old(audited)[t]
      ensures forall t | old(Wedged(t)) :: promotions == old(promotions) && old(pendingQueue) <= pendingQueue
    {
      hide Inv, Ledger, Ids, DistinctIds, AppendOnly, BooksGrow, FinishedKept;
      ghost var start := View();
      FinishedSame(start, start);
      FinishedAppends(start, start);
      NothingEntered(Books());
      if attempt.Some? {
        MutexKnown(start, attempt.value);
      }
      var kind: nat :| true;
      if kind == 0 {
        CommentStep();
      } else if kind == 1 && conts != map[] {
        ContinuationStep();
      } else if kind == 2 && displayTimer.Some? {
        ghost var at := FinishDisplay();
        FinishedAppends(start, View());
      } else if kind == 3 && attempt == None {
        var queueing: Option<Queueing> :| true;
        FreezeQueueing(queueing);
      } else if kind == 4 && attempt == None && conts == map[] && pendingQueue == [] && displayTimer == None {
        var sessionId: nat :| true;
        Reopen(sessionId);
      } else {
        var to: Service.Lifecycle :| true;
        var r := machine.TransitionToLifecycle(to, None, None);
      }
    }

    /** A stop: every attempt and the backlog are aborted, and the session may end. */
    method StopStep()
      requires Stable()
      modifies this, window, machine
      ensures Stable() && attempt == None
      ensures AppendOnly(old(View()), View()) && BooksGrow(old(Books()), Books())
    {
      hide Inv, Ledger, Ids, DistinctIds, AppendOnly, BooksGrow, FinishedKept, AllClosed, ClosedWith;
      ghost var start, books := View(), Books();
      var reason: Reason :| true;
      AbortAll(reason);
      ghost var aborted, entered := View(), Books();
      FinishedAppends(start, aborted);
      var ends := Verdict();
      if ends {
        EndSession();
        FinishedTrans(start, aborted, View());
        FinishedAppends(start, View());
        BooksTrans(books, entered, Books());
      }
    }

    /** One arbitrary step of the service, of any kind that is enabled. */
    method AnyStep()
      requires Stable()
      modifies this, window, machine
      ensures Stable()
      ensures AppendOnly(old(View()), View()) && BooksGrow(old(Books()), Books())
    {
      hide Good, Ids, AppendOnly, BooksGrow;
      var stops := Verdict();
      if stops {
        StopStep();
      } else {
        ServeStep();
      }
    }

    /**
     * Any number of steps in any order keeps the invariant, hence all its
     * consequences, and nothing audited or entered in the backlog's books is lost.
     */
    method Run(steps: nat)
      requires Stable()
      modifies this, window, machine
      ensures Stable()
      ensures forall t | t in old(audited) :: t in audited && old(audited)[t] <= audited[t]
      ensures old(enqueued) <= enqueued && old(promotions) <= promotions
      ensures forall t | t in old(left) :: t in left && left[t] == old(left)[t]
      ensures forall t | t in audited :: IsPath(audited[t]) && |audited[t]| <= 10
      ensures forall t | t in audited && !Terminal(Last(audited[t])) ::
        exists o :: OwnedBy(View(), t, o) && forall o' :: OwnedBy(View(), t, o') ==> o' == o
      ensures forall t, u | t in audited && u in audited
        && InAttempt(Last(audited[t])) && InAttempt(Last(audited[u])) :: t == u
      ensures windowedComments == Ids(window.candidates) && |window.candidates| <= window.maxCount
      ensures forall t | t in windowedComments :: t in comments && comments[t].windowVersion == window.windowVersion
      ensures |pendingQueue| <= QUEUE_MAX && Ledger(pendingQueue, enqueued, left, promotions, nextTrace)
      ensures machine.Valid() && !refused
    {
      RunKeeps(steps);
      Consequences(View());
    }

    /** The loop of a run. */
    method RunKeeps(steps: nat)
      requires Stable()
      modifies this, window, machine
      ensures Stable()
      ensures AppendOnly(old(View()), View()) && BooksGrow(old(Books()), Books())
    {
      hide Good, Ids, AppendOnly, BooksGrow;
      ghost var start, books := View(), Books();
      FinishedSame(start, start);
      FinishedAppends(start, start);
      NothingEntered(books);
      for i := 0 to steps
        invariant Stable()
        invariant AppendOnly(start, View()) && BooksGrow(books, Books())
      {
        ghost var before, entered := View(), Books();
        AnyStep();
        AppendTrans(start, before, View());
        BooksTrans(books, entered, Books());
      }
    }

    /**
     * While an attempt is held by a hidden trace nothing starts: whatever steps
     * follow, short of a stop, no trace gets past retrieval, none is promoted
     * from the backlog and the trace itself gains no row.
     */
    method RunHeld(steps: nat, t: TraceId)
      requires Stable() && Wedged(t)
      modifies this, window, machine
      ensures Stable() && Wedged(t)
      ensures t in old(audited) && t in audited && audited[t] == old(audited)[t]
      ensures promotions == old(promotions) && old(pendingQueue) <= pendingQueue
      ensures forall u | u in audited :: audited[u] != [] && !InAttempt(Last(audited[u]))
    {
      hide Inv, Ledger, Ids, DistinctIds, AppendOnly, BooksGrow;
      MutexKnown(View(), t);
      for i := 0 to steps
        invariant Stable() && Wedged(t)
        invariant t in audited && audited[t] == old(audited)[t]
        invariant promotions == old(promotions) && old(pendingQueue) <= pendingQueue
      {
        ServeStep();
      }
      NothingInFlight(View(), t);
    }

    /**
     * The hook throws once the suggestion is on screen, and the catch handler
     * runs: the mutex stays taken exactly when the attempt was still current.
     */
    method ShowThenThrow(t: TraceId)
      requires Stable() && t in conts && conts[t] == AwaitShow
      modifies this`attempt, this`displayTimer, this`conts, this`traceState, this`audited, this`refused,
        this`windowedComments, this`comments, this`attempts, this`clock, window, machine`activity
      ensures Stable() && t in old(attempts)
      ensures Wedged(t) <==> var now := clock; old(Current(t, now))
    {
      hide Good, Ids, Turn, Unreferenced, ClosedWith;
      ResumeShow(t, Shown(true));
      if t in conts && conts[t] == AttemptThrown {
        HandlePipelineError(t);
      }
    }

    /** As `ShowThenThrow`, when the display duration cannot be read: then the attempt need only be the current one. */
    method ReadThenThrow(t: TraceId)
      requires Stable() && t in conts && conts[t] == AwaitDuration
      modifies this`attempt, this`displayTimer, this`conts, this`traceState, this`audited, this`refused,
        this`windowedComments, this`comments, this`attempts, this`clock, window`candidates, machine`activity
      ensures Stable() && t !in conts
      ensures Wedged(t) <==> old(attempt) == Some(t)
    {
      hide Inv, Ledger, Ids, DistinctIds, Turn, Unreferenced, ClosedWith;
      DurationAwaited(View(), t);
      ResumeDuration(t, true);
      HandlePipelineError(t);
    }

    /** Resumes one continuation after a stop: the service stays quiet and one promise is used up. */
    method SettleOne(t: TraceId)
      requires Stable() && Quiet(View()) && t in conts
      modifies this`attempt, this`displayTimer, this`conts, this`traceState, this`audited, this`refused,
        this`windowedComments, this`comments, this`attempts, this`clock, window, machine`activity
      ensures Stable() && Quiet(View())
      ensures |Awaiting(conts)| < |Awaiting(old(conts))|
        || (Awaiting(conts) == Awaiting(old(conts)) && |conts| < |old(conts)|)
      ensures AppendOnly(old(View()), View())
    {
      hide Inv, Ledger, DistinctIds, Spent, Awaiting, Turn, AppendOnly, FinishedKept;
      ghost var start := View();
      ghost var before := conts;
      ResumeAny(t);
      TurnFinished(start, View(), {t});
      FinishedAppends(start, View());
      SpentDecreases(before, conts, t);
      TimerNeedsAttempt(View());
    }

    /**
     * After a stop, resuming every suspended continuation, in any order and with
     * any outcomes, ends; and then every trace ever begun is terminal.
     */
    method StopAndSettle(reason: Reason)
      requires Stable()
      modifies this, window, machine
      ensures Stable() && conts == map[]
      ensures forall t | t in old(audited) :: t in audited && old(audited)[t] <= audited[t]
      ensures old(enqueued) <= enqueued && old(promotions) <= promotions
      ensures forall t | t in old(left) :: t in left && left[t] == old(left)[t]
      ensures pendingQueue == [] && enqueued == left.Keys
      ensures forall t | t in audited :: audited[t] != [] && Terminal(Last(audited[t]))
    {
      StopQuietly(reason);
      AllTerminal(View());
      AllHaveLeft(Books(), nextTrace);
    }

    /** Stops the service and resumes whatever is left. */
    method StopQuietly(reason: Reason)
      requires Stable()
      modifies this, window, machine
      ensures Stable() && conts == map[] && Quiet(View())
      ensures AppendOnly(old(View()), View()) && BooksGrow(old(Books()), Books())
    {
      hide Good, Ids, Awaiting, AppendOnly, BooksGrow, Quiet;
      ghost var start, books := View(), Books();
      StopNow(reason);
      while conts != map[]
        invariant Stable() && Quiet(View())
        invariant AppendOnly(start, View()) && BooksGrow(books, Books())
        decreases |Awaiting(conts)|, |conts|
      {
        ghost var before := View();
        var t :| t in conts;
        SettleOne(t);
        AppendTrans(start, before, View());
      }
    }

    /** The stop itself: everything is aborted and the session ends. */
    method StopNow(reason: Reason)
      requires Stable()
      modifies this, window, machine
      ensures Stable() && Quiet(View())
      ensures AppendOnly(old(View()), View()) && BooksGrow(old(Books()), Books())
    {
      hide Good, Ids, AppendOnly, BooksGrow, FinishedKept, AllClosed, ClosedWith, Quiet;
      ghost var start, books := View(), Books();
      AbortAll(reason);
      ghost var aborted, entered := View(), Books();
      EndSession();
      FinishedTrans(start, aborted, View());
      FinishedAppends(start, View());
      BooksTrans(books, entered, Books());
    }
  }
}
