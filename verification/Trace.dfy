/** The 14-state trace machine every live comment is audited through. */
module Trace {
  import opened Wrappers

  /** Trace ids are time ordered; the model uses the arrival number. */
  type TraceId = nat

  datatype TraceState =
    | Received
    | Normalized
    | Filtered
    | Routed
    | Retrieving
    | DirectReady
    | PromptRendered
    | LlmPending
    | Generated
    | DisplayReady
    | Displayed
    | Hidden
    | Discarded
    | Failed

  datatype Reason =
    | EventReceived
    | NormalizationOk
    | EmptyNormalized
    | InputSafetyFiltered
    | PersonaRouted
    | PersonaRouteUnavailable
    | RetrievalStarted
    | RetrievalFailed
    | SemanticDiscard
    | GoldenDirectEligible
    | WindowEvicted
    | LlmRequired
    | ProviderRequested
    | ProviderSucceeded
    | ProviderFailed
    | LlmSemanticDiscard
    | OutputValidated
    | OutputInvalid
    | OverlayRendered
    | DisplayDurationElapsed
    | DisplayWindowActive
    | StaleSession
    | StaleWindow
    | DeadlineExceeded
    | QueueTimeout
    | SourceError
    | RoomEnded
    | UserStopped
    | PipelineError

  /** The transition table; `None` is the state before the first transition. */
  function Successors(from: Option<TraceState>): set<TraceState> {
    match from
    case None => {Received}
    case Some(Received) => {Normalized}
    case Some(Normalized) => {Filtered, Routed, Discarded}
    case Some(Routed) => {Retrieving}
    case Some(Retrieving) => {DirectReady, PromptRendered, Discarded}
    case Some(DirectReady) => {DisplayReady}
    case Some(PromptRendered) => {LlmPending}
    case Some(LlmPending) => {Generated, Failed, Discarded}
    case Some(Generated) => {DisplayReady, Discarded}
    case Some(DisplayReady) => {Displayed, Discarded}
    case Some(Displayed) => {Hidden}
    case Some(_) => {}
  }

  predicate Allowed(from: Option<TraceState>, to: TraceState) {
    to in Successors(from)
  }

  /** The same table read backwards: the states a state may be entered from. */
  function Predecessors(to: TraceState): set<Option<TraceState>> {
    match to
    case Received => {None}
    case Normalized => {Some(Received)}
    case Filtered | Routed => {Some(Normalized)}
    case Retrieving => {Some(Routed)}
    case DirectReady | PromptRendered => {Some(Retrieving)}
    case LlmPending => {Some(PromptRendered)}
    case Generated | Failed => {Some(LlmPending)}
    case DisplayReady => {Some(DirectReady), Some(Generated)}
    case Displayed => {Some(DisplayReady)}
    case Hidden => {Some(Displayed)}
    case Discarded => {Some(Normalized), Some(Retrieving), Some(LlmPending), Some(Generated), Some(DisplayReady)}
  }

  /** Both readings of the table agree on every pair. */
  lemma TableBothWays(from: Option<TraceState>, to: TraceState)
    ensures Allowed(from, to) <==> from in Predecessors(to)
  {
  }

  /** The final states are those that nothing may follow. */
  lemma TerminalIff(state: TraceState)
    ensures Terminal(state) <==> forall next :: Some(state) !in Predecessors(next)
  {
    if !Terminal(state) {
      var next :| next in Successors(Some(state));
      TableBothWays(Some(state), next);
    } else {
      forall next
        ensures Some(state) !in Predecessors(next)
      {
        TableBothWays(Some(state), next);
      }
    }
  }

  predicate Terminal(state: TraceState) {
    state.Filtered? || state.Hidden? || state.Discarded? || state.Failed?
  }

  /** One row of a trace: the states the writer named and the reason. */
  datatype Entry = Entry(from: Option<TraceState>, to: TraceState, reason: Reason)

  /** The reason that goes with every state but DISCARDED, which has many. */
  function ReasonFor(to: TraceState): Option<Reason> {
    match to
    case Received => Some(EventReceived)
    case Normalized => Some(NormalizationOk)
    case Filtered => Some(InputSafetyFiltered)
    case Routed => Some(PersonaRouted)
    case Retrieving => Some(RetrievalStarted)
    case DirectReady => Some(GoldenDirectEligible)
    case PromptRendered => Some(LlmRequired)
    case LlmPending => Some(ProviderRequested)
    case Generated => Some(ProviderSucceeded)
    case DisplayReady => Some(OutputValidated)
    case Displayed => Some(OverlayRendered)
    case Hidden => Some(DisplayDurationElapsed)
    case Failed => Some(ProviderFailed)
    case Discarded => None
  }

  predicate Fits(to: TraceState, reason: Reason) {
    to == Discarded || ReasonFor(to) == Some(reason)
  }

  /** The reasons a freshness check gives. */
  predicate OfStaleness(reason: Reason) {
    reason in {UserStopped, StaleSession, StaleWindow, DeadlineExceeded}
  }

  /** Every row is in the table, with the reason of its state, and starts where the previous one ended. */
  ghost predicate IsPath(chain: seq<Entry>) {
    && chain != []
    && chain[0].from == None
    && (forall i | 0 <= i < |chain| :: Allowed(chain[i].from, chain[i].to))
    && (forall i | 0 <= i < |chain| :: Fits(chain[i].to, chain[i].reason))
    && (forall i | 0 < i < |chain| :: chain[i].from == Some(chain[i - 1].to))
  }

  function Last(chain: seq<Entry>): TraceState
    requires chain != []
  {
    chain[|chain| - 1].to
  }

  /** Longest distance from the start at which a state can stand. */
  function Rank(state: TraceState): nat {
    match state
    case Received => 1
    case Normalized => 2
    case Filtered => 3
    case Routed => 3
    case Retrieving => 4
    case DirectReady => 5
    case PromptRendered => 5
    case LlmPending => 6
    case Generated => 7
    case DisplayReady => 8
    case Displayed => 9
    case Hidden => 10
    case Discarded => 10
    case Failed => 10
  }

  /** The states of a trace strictly climb, so no trace revisits a state. */
  lemma {:induction false} PathClimbs(chain: seq<Entry>, i: nat, j: nat)
    requires IsPath(chain)
    requires i < j < |chain|
    ensures Rank(chain[i].to) < Rank(chain[j].to)
    decreases j
  {
    assert Allowed(chain[j].from, chain[j].to);
    if i < j - 1 {
      PathClimbs(chain, i, j - 1);
    }
  }

  /** A path has at most ten rows, and nothing follows a terminal state. */
  lemma {:induction false} PathEndsAtTerminal(chain: seq<Entry>)
    requires IsPath(chain)
    ensures |chain| <= 10
    ensures chain[0].to == Received
    ensures forall i | 0 <= i < |chain| :: Terminal(chain[i].to) ==> i == |chain| - 1
  {
    forall i | 0 <= i < |chain| - 1
      ensures !Terminal(chain[i].to)
    {
      assert Allowed(chain[i + 1].from, chain[i + 1].to);
    }
    PathRank(chain, |chain| - 1);
  }

  lemma {:induction false} PathRank(chain: seq<Entry>, i: nat)
    requires IsPath(chain)
    requires i < |chain|
    ensures i < Rank(chain[i].to) <= 10
  {
    assert Allowed(chain[i].from, chain[i].to);
    if i > 0 {
      PathRank(chain, i - 1);
    }
  }
}
