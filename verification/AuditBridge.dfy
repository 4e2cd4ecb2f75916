/**
 * The audit as the orchestrator keeps it and the transitions table of the store
 * are one thing seen twice: the rows of a trace, without their MACs, are the
 * chain the orchestrator has written.
 */
module AuditBridge {
  import opened Wrappers
  import opened Trace
  import opened Pipeline
  import opened HmacChain
  import opened AuditTables
  import opened AuditStorage
  import opened Outbox

  function EntriesOf(chain: seq<Row>): (entries: seq<Entry>)
    ensures |entries| == |chain|
    ensures forall i | 0 <= i < |chain| ::
      entries[i] == Entry(chain[i].payload.from, chain[i].payload.to, chain[i].payload.reason)
  {
    seq(|chain|, i requires 0 <= i < |chain| =>
      Entry(chain[i].payload.from, chain[i].payload.to, chain[i].payload.reason))
  }

  function ChainOf(chains: map<TraceId, seq<Entry>>, t: TraceId): seq<Entry> {
    if t in chains then chains[t] else []
  }

  /** Except for the traces pruned so far, the table holds what was written. */
  ghost predicate Mirrors(chains: map<TraceId, seq<Entry>>, rows: seq<Row>, gone: set<TraceId>) {
    forall t | t !in gone :: EntriesOf(Of(rows, t)) == ChainOf(chains, t)
  }

  /** What happens to the table: a transition is written, or old traces are pruned. */
  datatype Event =
    | Write(t: TraceId, from: Option<TraceState>, to: TraceState, reason: Reason, at: int)
    | Prune(ids: set<TraceId>)

  function ChainsAfter(chains: map<TraceId, seq<Entry>>, e: Event): map<TraceId, seq<Entry>> {
    if e.Write? then chains[e.t := ChainOf(chains, e.t) + [Entry(e.from, e.to, e.reason)]] else chains
  }

  function RowsAfter(rows: seq<Row>, e: Event, hmac: Hmac): seq<Row> {
    if e.Write? then Inserted(rows, NextRow(Of(rows, e.t), e.t, e.from, e.to, e.reason, e.at, hmac))
    else Pruned(rows, e.ids)
  }

  function GoneAfter(gone: set<TraceId>, e: Event): set<TraceId> {
    if e.Prune? then gone + e.ids else gone
  }

  lemma EntriesSnoc(chain: seq<Row>, row: Row)
    ensures EntriesOf(chain + [row]) == EntriesOf(chain) + [Entry(row.payload.from, row.payload.to, row.payload.reason)]
  {
  }

  /** One event keeps the two in agreement, and the table ordered and intact. */
  lemma EventKeeps(chains: map<TraceId, seq<Entry>>, rows: seq<Row>, gone: set<TraceId>, e: Event, hmac: Hmac)
    requires Ordered(rows) && Intact(rows, hmac) && Mirrors(chains, rows, gone)
    requires e.Write? ==> e.t !in gone
    ensures Ordered(RowsAfter(rows, e, hmac)) && Intact(RowsAfter(rows, e, hmac), hmac)
    ensures Mirrors(ChainsAfter(chains, e), RowsAfter(rows, e, hmac), GoneAfter(gone, e))
  {
    hide Intact, Ordered, Of, Inserted, Pruned;
    if e.Write? {
      var row := NextRow(Of(rows, e.t), e.t, e.from, e.to, e.reason, e.at, hmac);
      AppendKeepsIntact(rows, e.t, e.from, e.to, e.reason, e.at, hmac);
      forall u | u !in gone
        ensures EntriesOf(Of(Inserted(rows, row), u)) == ChainOf(ChainsAfter(chains, e), u)
      {
        InsertedOf(rows, row, u);
        EntriesSnoc(Of(rows, u), row);
        assert Of(rows, u) + [] == Of(rows, u);
      }
    } else {
      PruneKeepsIntact(rows, e.ids, hmac);
      forall u | u !in gone + e.ids
        ensures EntriesOf(Of(Pruned(rows, e.ids), u)) == ChainOf(chains, u)
      {
        PrunedOf(rows, e.ids, u);
      }
    }
  }

  /** No trace is written to after it was pruned. */
  ghost predicate Fit(events: seq<Event>, gone: set<TraceId>) {
    events == [] || ((events[0].Write? ==> events[0].t !in gone) && Fit(events[1..], GoneAfter(gone, events[0])))
  }

  function ChainsAfterAll(chains: map<TraceId, seq<Entry>>, events: seq<Event>): map<TraceId, seq<Entry>>
    decreases |events|
  {
    if events == [] then chains else ChainsAfterAll(ChainsAfter(chains, events[0]), events[1..])
  }

  function RowsAfterAll(rows: seq<Row>, events: seq<Event>, hmac: Hmac): seq<Row>
    decreases |events|
  {
    if events == [] then rows else RowsAfterAll(RowsAfter(rows, events[0], hmac), events[1..], hmac)
  }

  function GoneAfterAll(gone: set<TraceId>, events: seq<Event>): set<TraceId>
    decreases |events|
  {
    if events == [] then gone else GoneAfterAll(GoneAfter(gone, events[0]), events[1..])
  }

  /** Whatever was written and pruned, in any order, the table verifies and mirrors the chains. */
  lemma {:induction false} Replay(chains: map<TraceId, seq<Entry>>, rows: seq<Row>, gone: set<TraceId>,
                                  events: seq<Event>, hmac: Hmac)
    requires Ordered(rows) && Intact(rows, hmac) && Mirrors(chains, rows, gone) && Fit(events, gone)
    ensures Ordered(RowsAfterAll(rows, events, hmac)) && Intact(RowsAfterAll(rows, events, hmac), hmac)
    ensures Mirrors(ChainsAfterAll(chains, events), RowsAfterAll(rows, events, hmac), GoneAfterAll(gone, events))
    decreases |events|
  {
    hide Intact, Ordered, Mirrors, RowsAfter, ChainsAfter, GoneAfter;
    if events != [] {
      EventKeeps(chains, rows, gone, events[0], hmac);
      Replay(ChainsAfter(chains, events[0]), RowsAfter(rows, events[0], hmac),
        GoneAfter(gone, events[0]), events[1..], hmac);
    }
  }

  /**
   * The stored rows of a trace form one path of the state machine; a final row is
   * the last one; and a stored trace without one has exactly one owner in the
   * running orchestrator.
   */
  lemma StoredRowsArePath(s: State, rows: seq<Row>, gone: set<TraceId>, t: TraceId)
    requires Ready(s) && Mirrors(s.chains, rows, gone) && t !in gone && Of(rows, t) != []
    ensures IsPath(EntriesOf(Of(rows, t))) && |Of(rows, t)| <= 10
    ensures Finished(rows, t) <==> Terminal(Last(EntriesOf(Of(rows, t))))
    ensures !Finished(rows, t) ==> exists o :: OwnedBy(s, t, o) && forall o' :: OwnedBy(s, t, o') ==> o' == o
  {
    hide Ready, Of;
    var chain := Of(rows, t);
    assert EntriesOf(chain) == ChainOf(s.chains, t);
    ChainsAreContiguous(s, t);
    OfMembers(rows, t);
    if Finished(rows, t) {
      var r :| r in rows && r.payload.traceId == t && Terminal(r.payload.to);
      assert r in chain;
      var i :| 0 <= i < |chain| && chain[i] == r;
      assert EntriesOf(chain)[i].to == r.payload.to;
    }
    if Terminal(Last(EntriesOf(chain))) {
      assert chain[|chain| - 1] in rows;
    } else {
      NoTraceLost(s, t);
      assert OwnedBy(s, t, OwnerOf(s, t));
    }
  }

  /** A transition the orchestrator writes goes into the table under the same verdict of the state table. */
  method WriteThrough(store: AuditStore, ghost s: State, ghost gone: set<TraceId>, t: TraceId, from: Option<TraceState>,
                      to: TraceState, reason: Reason, now: int, snaps: seq<SnapshotInput>)
    returns (r: Result<(), StoreError>)
    requires store.Valid() && Mirrors(s.chains, store.transitions, gone) && t !in gone
    modifies store`traces, store`transitions, store`references, store`snapshots
    ensures store.Valid()
    ensures r == Err(StateInvalid) <==> !Allowed(from, to)
    ensures r.Ok? ==> Mirrors(Written(s, t, from, to, reason).chains, store.transitions, gone)
    ensures r.Err? ==> Mirrors(s.chains, store.transitions, gone)
  {
    hide Intact, Ordered, Mirrors, TracesOk, SnapshotsOk, LabelsOk, OutboxOk, LocksOk, ForeignKeys;
    EventKeeps(s.chains, store.transitions, gone, Write(t, from, to, reason, now), store.hmac);
    r := store.AppendTransition(t, from, to, reason, now, snaps);
  }

  /** Pruning takes only traces the orchestrator has finished, and leaves the others in agreement. */
  method PruneThrough(store: AuditStore, ghost s: State, ghost gone: set<TraceId>, cutoff: int)
    returns (r: PruneResult, ghost gone': set<TraceId>)
    requires store.Valid() && Ready(s) && Mirrors(s.chains, store.transitions, gone)
    modifies store`sessions, store`traces, store`transitions, store`references, store`snapshots, store`feedback,
      store`jobs
    ensures store.Valid() && gone' == gone + Expired(old(store.traces), cutoff)
    ensures Mirrors(s.chains, store.transitions, gone')
    ensures forall t | t in gone' && t !in gone :: t in s.chains && s.chains[t] != [] && Terminal(Last(s.chains[t]))
  {
    hide Intact, Ordered, Mirrors, Ready, TracesOk, SnapshotsOk, LabelsOk, OutboxOk, LocksOk, ForeignKeys;
    gone' := gone + Expired(store.traces, cutoff);
    EventKeeps(s.chains, store.transitions, gone, Prune(Expired(store.traces, cutoff)), store.hmac);
    forall t | t in Expired(store.traces, cutoff) && t !in gone
      ensures t in s.chains && s.chains[t] != [] && Terminal(Last(s.chains[t]))
    {
      CompletedIsFinished(store.traces, s, store.transitions, gone, t);
    }
    r := store.PruneTracesOlderThan(cutoff);
  }

  lemma CompletedIsFinished(traces: map<TraceId, TraceRow>, s: State, rows: seq<Row>, gone: set<TraceId>, t: TraceId)
    requires Ready(s) && Mirrors(s.chains, rows, gone) && TracesOk(traces, rows)
    requires t in traces && traces[t].completedAt.Some? && t !in gone
    ensures t in s.chains && s.chains[t] != [] && Terminal(Last(s.chains[t]))
  {
    hide Ready, Of;
    var r :| r in rows && r.payload.traceId == t && Terminal(r.payload.to);
    OfMembers(rows, t);
    assert r in Of(rows, t);
    assert EntriesOf(Of(rows, t)) == ChainOf(s.chains, t);
    StoredRowsArePath(s, rows, gone, t);
  }
}
