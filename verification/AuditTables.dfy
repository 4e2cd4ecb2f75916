/** The trace tables of the audit database, their foreign keys, and what each statement does to them. */
module AuditTables {
  import opened Wrappers
  import opened Trace
  import opened HmacChain
  import opened Outbox

  type SessionId = nat
  type SnapshotId = nat

  datatype Session = Session(endedAt: Option<int>)

  datatype TraceRow = TraceRow(
    sessionId: SessionId, messageId: string, finalState: Option<TraceState>, completedAt: Option<int>,
    labelStatus: LabelStatus, currentFeedback: Option<FeedbackId>)

  /** An encrypted snapshot, a snapshot to be stored, and the link from a transition to it. */
  datatype Snapshot = Snapshot(content: string, createdAt: int)
  datatype SnapshotInput = SnapshotInput(id: SnapshotId, role: string, content: string)
  datatype Reference = Reference(traceId: TraceId, seqNo: nat, snapshotId: SnapshotId, role: string)

  predicate HasRow(transitions: seq<Row>, t: TraceId, n: nat) {
    exists r | r in transitions :: r.payload.traceId == t && r.payload.seqNo == n
  }

  /** The only writer stores sessions without an end and never adds one. */
  ghost predicate NeverEnded(sessions: map<SessionId, Session>) {
    forall s | s in sessions :: sessions[s].endedAt.None?
  }

  /** The foreign keys that SQLite enforces after every statement. */
  ghost predicate ForeignKeys(sessions: map<SessionId, Session>, traces: map<TraceId, TraceRow>,
                              transitions: seq<Row>, references: set<Reference>,
                              snapshots: map<SnapshotId, Snapshot>, feedback: map<FeedbackId, Feedback>,
                              jobs: map<JobId, Job>)
  {
    && SessionKeys(sessions, traces)
    && TransitionKeys(traces, transitions)
    && ReferenceKeys(transitions, references, snapshots)
    && FeedbackKeys(traces, feedback)
    && JobKeys(feedback, jobs)
  }

  ghost predicate SessionKeys(sessions: map<SessionId, Session>, traces: map<TraceId, TraceRow>) {
    forall t | t in traces :: traces[t].sessionId in sessions
  }

  ghost predicate TransitionKeys(traces: map<TraceId, TraceRow>, transitions: seq<Row>) {
    forall r | r in transitions :: r.payload.traceId in traces
  }

  ghost predicate ReferenceKeys(transitions: seq<Row>, references: set<Reference>,
                                snapshots: map<SnapshotId, Snapshot>)
  {
    forall r | r in references :: r.snapshotId in snapshots && HasRow(transitions, r.traceId, r.seqNo)
  }

  ghost predicate FeedbackKeys(traces: map<TraceId, TraceRow>, feedback: map<FeedbackId, Feedback>) {
    forall f | f in feedback :: feedback[f].traceId in traces
  }

  ghost predicate JobKeys(feedback: map<FeedbackId, Feedback>, jobs: map<JobId, Job>) {
    forall j | j in jobs :: jobs[j].feedbackId in feedback
  }

  predicate Referenced(references: set<Reference>, s: SnapshotId) {
    exists r | r in references :: r.snapshotId == s
  }

  ghost predicate Finished(transitions: seq<Row>, t: TraceId) {
    exists r | r in transitions :: r.payload.traceId == t && Terminal(r.payload.to)
  }

  /** A snapshot is stored with exactly one reference, and none is left without one. */
  ghost predicate SnapshotsOk(references: set<Reference>, snapshots: map<SnapshotId, Snapshot>) {
    && (forall s | s in snapshots :: Referenced(references, s))
    && (forall q, r | q in references && r in references && q.snapshotId == r.snapshotId :: q == r)
  }

  /** A final transition of `t`, to the state and at the time given. */
  ghost predicate FinalRow(r: Row, t: TraceId, state: TraceState, at: int) {
    r.payload.traceId == t && Terminal(r.payload.to) && r.payload.to == state && r.payload.at == at
  }

  /**
   * A trace is marked complete exactly when a final transition was written, with
   * the state and the time of such a row; every row is in the table.
   */
  ghost predicate TracesOk(traces: map<TraceId, TraceRow>, transitions: seq<Row>) {
    && (forall r | r in transitions :: Allowed(r.payload.from, r.payload.to))
    && (forall t | t in traces :: traces[t].completedAt.Some? <==> Finished(transitions, t))
    && (forall t | t in traces :: traces[t].completedAt.Some? <==> traces[t].finalState.Some?)
    && (forall t | t in traces && traces[t].completedAt.Some? && traces[t].finalState.Some? ::
          exists r :: r in transitions && FinalRow(r, t, traces[t].finalState.value, traces[t].completedAt.value))
  }

  /** One feedback row per labelled trace, which the trace points back to. */
  ghost predicate LabelsOk(traces: map<TraceId, TraceRow>, feedback: map<FeedbackId, Feedback>) {
    && (forall f | f in feedback :: LabelOk(traces, feedback[f], f))
    && (forall t | t in traces ::
          match traces[t].currentFeedback
          case None => traces[t].labelStatus == Unlabeled
          case Some(f) => f in feedback && feedback[f].traceId == t)
  }

  ghost predicate LabelOk(traces: map<TraceId, TraceRow>, row: Feedback, f: FeedbackId) {
    && row.traceId in traces
    && traces[row.traceId].currentFeedback == Some(f)
    && traces[row.traceId].labelStatus == row.labelStatus
  }

  /** The revision a label of `t` must expect: the optimistic lock. */
  ghost function Revision(traces: map<TraceId, TraceRow>, feedback: map<FeedbackId, Feedback>, t: TraceId): nat {
    if t in traces && traces[t].currentFeedback.Some? && traces[t].currentFeedback.value in feedback
    then feedback[traces[t].currentFeedback.value].revisionNo else 0
  }

  /**
   * `seen` holds every trace id ever stored and `accepted` every (trace, expected
   * revision) that a label was accepted for: the lock has moved past them all.
   */
  ghost predicate LocksOk(traces: map<TraceId, TraceRow>, feedback: map<FeedbackId, Feedback>, seen: set<TraceId>,
                          accepted: set<(TraceId, nat)>)
  {
    && (forall t | t in traces :: t in seen)
    && (forall a | a in accepted :: a.0 in seen && (a.0 in traces ==> a.1 < Revision(traces, feedback, a.0)))
  }

  // ------------------------------------------------------------------ appending

  function References(traceId: TraceId, seqNo: nat, snaps: seq<SnapshotInput>): set<Reference> {
    set s | s in snaps :: Reference(traceId, seqNo, s.id, s.role)
  }

  ghost predicate DistinctSnaps(snaps: seq<SnapshotInput>) {
    forall i, j | 0 <= i < j < |snaps| :: snaps[i].id != snaps[j].id
  }

  lemma InsertedMembers(rows: seq<Row>, row: Row)
    ensures forall r :: r in Inserted(rows, row) <==> r in rows || r == row
  {
    var k := UpTo(rows, row.payload.traceId);
    assert rows == rows[..k] + rows[k..];
  }

  /** A trace row after a transition to `to` was written. */
  function AfterTransition(row: TraceRow, to: TraceState, at: int): TraceRow {
    if Terminal(to) then row.(finalState := Some(to), completedAt := Some(at)) else row
  }

  lemma AppendKeepsTraces(traces: map<TraceId, TraceRow>, transitions: seq<Row>, row: Row)
    requires TracesOk(traces, transitions)
    requires row.payload.traceId in traces && Allowed(row.payload.from, row.payload.to)
    ensures
      var t := row.payload.traceId;
      TracesOk(traces[t := AfterTransition(traces[t], row.payload.to, row.payload.at)], Inserted(transitions, row))
  {
    var t := row.payload.traceId;
    var transitions' := Inserted(transitions, row);
    InsertedMembers(transitions, row);
    forall u | u in traces
      ensures Finished(transitions', u) <==> Finished(transitions, u) || (u == t && Terminal(row.payload.to))
    {
      if Finished(transitions', u) {
        var r :| r in transitions' && r.payload.traceId == u && Terminal(r.payload.to);
      }
      if Finished(transitions, u) {
        var r :| r in transitions && r.payload.traceId == u && Terminal(r.payload.to);
        assert r in transitions';
      }
    }
    var traces' := traces[t := AfterTransition(traces[t], row.payload.to, row.payload.at)];
    forall u | u in traces' && traces'[u].completedAt.Some? && traces'[u].finalState.Some?
      ensures exists r :: r in transitions' && FinalRow(r, u, traces'[u].finalState.value, traces'[u].completedAt.value)
    {
      if u == t && Terminal(row.payload.to) {
        assert row in transitions' && FinalRow(row, t, row.payload.to, row.payload.at);
      } else {
        var r :| r in transitions && FinalRow(r, u, traces[u].finalState.value, traces[u].completedAt.value);
        assert r in transitions';
      }
    }
  }

  /** Storing an unlabelled trace leaves the labels and locks of the others alone. */
  lemma TraceAdded(traces: map<TraceId, TraceRow>, transitions: seq<Row>, feedback: map<FeedbackId, Feedback>,
                   seen: set<TraceId>, accepted: set<(TraceId, nat)>, t: TraceId, row: TraceRow)
    requires TracesOk(traces, transitions) && LabelsOk(traces, feedback) && LocksOk(traces, feedback, seen, accepted)
    requires TransitionKeys(traces, transitions)
    requires t !in seen
    requires row.currentFeedback == None && row.labelStatus == Unlabeled
    requires row.completedAt == None && row.finalState == None
    ensures TracesOk(traces[t := row], transitions)
    ensures LabelsOk(traces[t := row], feedback)
    ensures LocksOk(traces[t := row], feedback, seen + {t}, accepted)
  {
    assert !Finished(transitions, t);
    forall f | f in feedback
      ensures LabelOk(traces[t := row], feedback[f], f)
    {
      assert LabelOk(traces, feedback[f], f);
    }
  }

  /** Completing a trace leaves its label alone. */
  lemma CompletionKeepsLabels(traces: map<TraceId, TraceRow>, feedback: map<FeedbackId, Feedback>,
                              seen: set<TraceId>, accepted: set<(TraceId, nat)>, t: TraceId, to: TraceState, at: int)
    requires t in traces && LabelsOk(traces, feedback) && LocksOk(traces, feedback, seen, accepted)
    ensures
      var traces' := traces[t := AfterTransition(traces[t], to, at)];
      LabelsOk(traces', feedback) && LocksOk(traces', feedback, seen, accepted)
  {
    var traces' := traces[t := AfterTransition(traces[t], to, at)];
    forall f | f in feedback
      ensures LabelOk(traces', feedback[f], f)
    {
      assert LabelOk(traces, feedback[f], f);
    }
  }

  lemma ReferenceAdded(references: set<Reference>, snapshots: map<SnapshotId, Snapshot>, r: Reference, s: Snapshot)
    requires SnapshotsOk(references, snapshots) && r.snapshotId !in snapshots
    requires forall q | q in references :: q.snapshotId in snapshots
    ensures SnapshotsOk(references + {r}, snapshots[r.snapshotId := s])
  {
    var more := references + {r};
    forall k | k in snapshots[r.snapshotId := s]
      ensures Referenced(more, k)
    {
      if k == r.snapshotId {
        assert r in more;
      } else {
        assert Referenced(references, k);
        var q :| q in references && q.snapshotId == k;
        assert q in more;
      }
    }
  }

  lemma ReferencesSnoc(t: TraceId, n: nat, snaps: seq<SnapshotInput>, snap: SnapshotInput)
    ensures References(t, n, snaps + [snap]) == References(t, n, snaps) + {Reference(t, n, snap.id, snap.role)}
  {
    var more := snaps + [snap];
    assert snap in more;
    assert forall s :: s in more <==> s in snaps || s == snap;
  }

  /** The references of a new row hang on it, the old ones on the rows they hung on. */
  lemma AppendKeepsKeys(traces: map<TraceId, TraceRow>, transitions: seq<Row>, row: Row, references: set<Reference>,
                        snapshots: map<SnapshotId, Snapshot>, snaps: seq<SnapshotInput>,
                        snapshots': map<SnapshotId, Snapshot>)
    requires TransitionKeys(traces, transitions) && ReferenceKeys(transitions, references, snapshots)
    requires row.payload.traceId in traces
    requires snapshots.Keys <= snapshots'.Keys && forall s | s in snaps :: s.id in snapshots'
    ensures TransitionKeys(traces, Inserted(transitions, row))
    ensures ReferenceKeys(Inserted(transitions, row),
                          references + References(row.payload.traceId, row.payload.seqNo, snaps), snapshots')
  {
    hide Inserted;
    InsertedMembers(transitions, row);
    var more := Inserted(transitions, row);
    assert row in more;
    forall r | r in references
      ensures HasRow(more, r.traceId, r.seqNo) && r.snapshotId in snapshots'
    {
      var x :| x in transitions && x.payload.traceId == r.traceId && x.payload.seqNo == r.seqNo;
      assert x in more;
      assert r.snapshotId in snapshots.Keys;
    }
  }

  // ------------------------------------------------------------------ pruning

  /** The traces a retention cut-off removes: only completed ones, and all completed before it. */
  function Expired(traces: map<TraceId, TraceRow>, cutoff: int): set<TraceId> {
    set t | t in traces && traces[t].completedAt.Some? && traces[t].completedAt.value < cutoff
  }

  function TracesWithout(traces: map<TraceId, TraceRow>, gone: set<TraceId>): map<TraceId, TraceRow> {
    map t | t in traces && t !in gone :: traces[t]
  }

  function ReferencesWithout(references: set<Reference>, gone: set<TraceId>): set<Reference> {
    set r | r in references && r.traceId !in gone
  }

  function SnapshotsOf(references: set<Reference>, snapshots: map<SnapshotId, Snapshot>): map<SnapshotId, Snapshot> {
    map s | s in snapshots && Referenced(references, s) :: snapshots[s]
  }

  predicate InUse(traces: map<TraceId, TraceRow>, s: SessionId) {
    exists t | t in traces :: traces[t].sessionId == s
  }

  /** The sessions left once those ended before the cut-off and without traces are gone. */
  function SessionsLeft(sessions: map<SessionId, Session>, traces: map<TraceId, TraceRow>, cutoff: int)
    : map<SessionId, Session>
  {
    map s | s in sessions && !(sessions[s].endedAt.Some? && sessions[s].endedAt.value < cutoff && !InUse(traces, s)) ::
      sessions[s]
  }

  lemma PruneKeepsTraces(traces: map<TraceId, TraceRow>, transitions: seq<Row>, gone: set<TraceId>)
    requires TracesOk(traces, transitions) && Ordered(transitions)
    ensures TracesOk(TracesWithout(traces, gone), Pruned(transitions, gone))
  {
    PrunedOrdered(transitions, gone);
    var kept := Pruned(transitions, gone);
    forall t | t in traces && t !in gone
      ensures Finished(kept, t) <==> Finished(transitions, t)
    {
      if Finished(kept, t) {
        var r :| r in kept && r.payload.traceId == t && Terminal(r.payload.to);
        assert r in transitions;
      }
      if Finished(transitions, t) {
        var r :| r in transitions && r.payload.traceId == t && Terminal(r.payload.to);
        assert r in kept;
      }
    }
    forall t | t in traces && t !in gone && traces[t].completedAt.Some? && traces[t].finalState.Some?
      ensures exists r :: r in kept && FinalRow(r, t, traces[t].finalState.value, traces[t].completedAt.value)
    {
      var r :| r in transitions && FinalRow(r, t, traces[t].finalState.value, traces[t].completedAt.value);
      assert r in kept;
    }
  }

  /** Removing the references of some traces leaves the snapshots of the others, each with its reference. */
  lemma PruneKeepsSnapshots(references: set<Reference>, snapshots: map<SnapshotId, Snapshot>, gone: set<TraceId>)
    requires SnapshotsOk(references, snapshots)
    ensures
      var refs := ReferencesWithout(references, gone);
      SnapshotsOk(refs, SnapshotsOf(refs, snapshots))
  {
  }

  /** Dropping unreferenced snapshots drops exactly those of the removed traces. */
  lemma PrunedSnapshots(references: set<Reference>, snapshots: map<SnapshotId, Snapshot>, gone: set<TraceId>,
                        r: Reference)
    requires SnapshotsOk(references, snapshots) && r in references && r.snapshotId in snapshots
    ensures r.snapshotId in SnapshotsOf(ReferencesWithout(references, gone), snapshots) <==> r.traceId !in gone
  {
    var refs := ReferencesWithout(references, gone);
    assert forall q | q in refs && q.snapshotId == r.snapshotId :: q == r;
    if r.traceId !in gone {
      assert r in refs;
    }
  }

  lemma PruneKeepsLabels(traces: map<TraceId, TraceRow>, feedback: map<FeedbackId, Feedback>, gone: set<TraceId>)
    requires LabelsOk(traces, feedback)
    ensures LabelsOk(TracesWithout(traces, gone), FeedbackWithout(feedback, gone))
  {
    var traces', feedback' := TracesWithout(traces, gone), FeedbackWithout(feedback, gone);
    forall f | f in feedback'
      ensures LabelOk(traces', feedback'[f], f)
    {
      assert LabelOk(traces, feedback[f], f);
    }
  }

  /** Removing whole traces leaves no dangling key behind, after any of the deletes. */
  lemma PruneKeepsKeys(sessions: map<SessionId, Session>, traces: map<TraceId, TraceRow>, transitions: seq<Row>,
                       references: set<Reference>, snapshots: map<SnapshotId, Snapshot>, gone: set<TraceId>,
                       cutoff: int)
    requires SessionKeys(sessions, traces) && TransitionKeys(traces, transitions)
    requires ReferenceKeys(transitions, references, snapshots) && Ordered(transitions)
    ensures
      var refs := ReferencesWithout(references, gone);
      && ReferenceKeys(transitions, refs, snapshots)
      && ReferenceKeys(transitions, refs, SnapshotsOf(refs, snapshots))
      && ReferenceKeys(Pruned(transitions, gone), refs, SnapshotsOf(refs, snapshots))
    ensures TransitionKeys(TracesWithout(traces, gone), Pruned(transitions, gone))
    ensures TransitionKeys(traces, Pruned(transitions, gone))
    ensures SessionKeys(sessions, TracesWithout(traces, gone))
    ensures SessionKeys(SessionsLeft(sessions, TracesWithout(traces, gone), cutoff), TracesWithout(traces, gone))
  {
    PrunedOrdered(transitions, gone);
    var refs, kept := ReferencesWithout(references, gone), Pruned(transitions, gone);
    forall r | r in refs
      ensures HasRow(kept, r.traceId, r.seqNo)
    {
      assert HasRow(transitions, r.traceId, r.seqNo);
      var x :| x in transitions && x.payload.traceId == r.traceId && x.payload.seqNo == r.seqNo;
      assert x in kept;
    }
    forall t | t in TracesWithout(traces, gone)
      ensures InUse(TracesWithout(traces, gone), traces[t].sessionId)
    {
    }
  }

  lemma PruneKeepsLabelKeys(traces: map<TraceId, TraceRow>, feedback: map<FeedbackId, Feedback>,
                            jobs: map<JobId, Job>, gone: set<TraceId>)
    requires FeedbackKeys(traces, feedback) && JobKeys(feedback, jobs)
    ensures JobKeys(feedback, JobsWithout(feedback, jobs, gone))
    ensures FeedbackKeys(traces, FeedbackWithout(feedback, gone))
    ensures JobKeys(FeedbackWithout(feedback, gone), JobsWithout(feedback, jobs, gone))
    ensures FeedbackKeys(TracesWithout(traces, gone), FeedbackWithout(feedback, gone))
    ensures FeedbackWithout(feedback, gone).Keys <= feedback.Keys
    ensures JobsWithout(feedback, jobs, gone).Keys <= jobs.Keys
  {
  }

  /** The deletes in their order: references, snapshots, transitions, jobs, feedback, traces, sessions. */
  lemma PruneOrder(sessions: map<SessionId, Session>, traces: map<TraceId, TraceRow>, transitions: seq<Row>,
                   references: set<Reference>, snapshots: map<SnapshotId, Snapshot>,
                   feedback: map<FeedbackId, Feedback>, jobs: map<JobId, Job>, gone: set<TraceId>, cutoff: int)
    requires ForeignKeys(sessions, traces, transitions, references, snapshots, feedback, jobs) && Ordered(transitions)
    ensures
      var refs := ReferencesWithout(references, gone);
      var snaps := SnapshotsOf(refs, snapshots);
      var rows := Pruned(transitions, gone);
      var jobs' := JobsWithout(feedback, jobs, gone);
      var feedback' := FeedbackWithout(feedback, gone);
      var traces' := TracesWithout(traces, gone);
      && ForeignKeys(sessions, traces, transitions, refs, snapshots, feedback, jobs)
      && ForeignKeys(sessions, traces, transitions, refs, snaps, feedback, jobs)
      && ForeignKeys(sessions, traces, rows, refs, snaps, feedback, jobs)
      && ForeignKeys(sessions, traces, rows, refs, snaps, feedback, jobs')
      && ForeignKeys(sessions, traces, rows, refs, snaps, feedback', jobs')
      && ForeignKeys(sessions, traces', rows, refs, snaps, feedback', jobs')
      && ForeignKeys(SessionsLeft(sessions, traces', cutoff), traces', rows, refs, snaps, feedback', jobs')
    ensures FeedbackWithout(feedback, gone).Keys <= feedback.Keys
    ensures JobsWithout(feedback, jobs, gone).Keys <= jobs.Keys
  {
    hide SessionKeys, TransitionKeys, ReferenceKeys, FeedbackKeys, JobKeys;
    PruneKeepsKeys(sessions, traces, transitions, references, snapshots, gone, cutoff);
    PruneKeepsLabelKeys(traces, feedback, jobs, gone);
  }

  /** The retention rule for sessions removes exactly those marked ended in time, so it removes none. */
  lemma NoSessionLeaves(sessions: map<SessionId, Session>, traces: map<TraceId, TraceRow>, cutoff: int)
    requires NeverEnded(sessions)
    ensures SessionsLeft(sessions, traces, cutoff) == sessions
  {
  }

  /** A prune only ever removes rows. */
  lemma PruneShrinks(sessions: map<SessionId, Session>, traces: map<TraceId, TraceRow>, references: set<Reference>,
                     snapshots: map<SnapshotId, Snapshot>, gone: set<TraceId>, cutoff: int)
    ensures |TracesWithout(traces, gone)| <= |traces|
    ensures |SnapshotsOf(references, snapshots)| <= |snapshots|
    ensures |SessionsLeft(sessions, TracesWithout(traces, gone), cutoff)| <= |sessions|
  {
    SubsetSize(TracesWithout(traces, gone).Keys, traces.Keys);
    SubsetSize(SnapshotsOf(references, snapshots).Keys, snapshots.Keys);
    SubsetSize(SessionsLeft(sessions, TracesWithout(traces, gone), cutoff).Keys, sessions.Keys);
  }

  /** What is left of the traces: all that were not completed before the cut-off, each with its rows. */
  ghost predicate TracesPruned(traces: map<TraceId, TraceRow>, transitions: seq<Row>, cutoff: int,
                               traces': map<TraceId, TraceRow>, transitions': seq<Row>)
  {
    && (forall t :: t in traces' <==>
          t in traces && (traces[t].completedAt.None? || traces[t].completedAt.value >= cutoff))
    && (forall t | t in traces' :: traces'[t] == traces[t] && Of(transitions', t) == Of(transitions, t))
    && (forall r :: r in transitions' <==> r in transitions && r.payload.traceId in traces')
  }

  /** The references of the traces that are left, and the snapshots these refer to. */
  ghost predicate SnapshotsPruned(references: set<Reference>, snapshots: map<SnapshotId, Snapshot>,
                                  traces': map<TraceId, TraceRow>, references': set<Reference>,
                                  snapshots': map<SnapshotId, Snapshot>)
  {
    && (forall r :: r in references' <==> r in references && r.traceId in traces')
    && (forall s :: s in snapshots' <==> s in snapshots && exists r :: r in references' && r.snapshotId == s)
    && (forall s | s in snapshots' :: snapshots'[s] == snapshots[s])
  }

  /** The labels of the traces that are left, and the jobs of these. */
  ghost predicate LabelsPruned(feedback: map<FeedbackId, Feedback>, jobs: map<JobId, Job>,
                               traces': map<TraceId, TraceRow>, feedback': map<FeedbackId, Feedback>,
                               jobs': map<JobId, Job>)
  {
    && (forall f :: f in feedback' <==> f in feedback && feedback[f].traceId in traces')
    && (forall f | f in feedback' :: feedback'[f] == feedback[f])
    && (forall j :: j in jobs' <==> j in jobs && jobs[j].feedbackId in feedback')
    && (forall j | j in jobs' :: jobs'[j] == jobs[j])
  }

  lemma TracesArePruned(traces: map<TraceId, TraceRow>, transitions: seq<Row>, cutoff: int)
    requires TransitionKeys(traces, transitions) && Ordered(transitions)
    ensures
      var gone := Expired(traces, cutoff);
      TracesPruned(traces, transitions, cutoff, TracesWithout(traces, gone), Pruned(transitions, gone))
  {
    var gone := Expired(traces, cutoff);
    PrunedOrdered(transitions, gone);
    hide Pruned, Of, Ordered;
    forall t | t !in gone
      ensures Of(Pruned(transitions, gone), t) == Of(transitions, t)
    {
      PrunedOf(transitions, gone, t);
    }
  }

  lemma SnapshotsArePruned(traces: map<TraceId, TraceRow>, transitions: seq<Row>, references: set<Reference>,
                           snapshots: map<SnapshotId, Snapshot>, gone: set<TraceId>)
    requires TransitionKeys(traces, transitions) && ReferenceKeys(transitions, references, snapshots)
    ensures
      var refs := ReferencesWithout(references, gone);
      SnapshotsPruned(references, snapshots, TracesWithout(traces, gone), refs, SnapshotsOf(refs, snapshots))
  {
    forall r | r in references
      ensures r.traceId in traces
    {
      var x :| x in transitions && x.payload.traceId == r.traceId && x.payload.seqNo == r.seqNo;
    }
    var refs := ReferencesWithout(references, gone);
    forall s | s in snapshots
      ensures s in SnapshotsOf(refs, snapshots) <==> exists r :: r in refs && r.snapshotId == s
    {
    }
  }

  lemma LabelsArePruned(traces: map<TraceId, TraceRow>, feedback: map<FeedbackId, Feedback>, jobs: map<JobId, Job>,
                        gone: set<TraceId>)
    requires FeedbackKeys(traces, feedback) && JobKeys(feedback, jobs)
    ensures LabelsPruned(feedback, jobs, TracesWithout(traces, gone), FeedbackWithout(feedback, gone),
                         JobsWithout(feedback, jobs, gone))
  {
  }

  /** The deletes of a cut-off remove exactly the traces completed before it, with what hangs on them. */
  lemma PruneIsExact(sessions: map<SessionId, Session>, traces: map<TraceId, TraceRow>, transitions: seq<Row>,
                     references: set<Reference>, snapshots: map<SnapshotId, Snapshot>,
                     feedback: map<FeedbackId, Feedback>, jobs: map<JobId, Job>, cutoff: int)
    requires ForeignKeys(sessions, traces, transitions, references, snapshots, feedback, jobs) && Ordered(transitions)
    ensures
      var gone := Expired(traces, cutoff);
      var refs := ReferencesWithout(references, gone);
      var traces' := TracesWithout(traces, gone);
      && TracesPruned(traces, transitions, cutoff, traces', Pruned(transitions, gone))
      && SnapshotsPruned(references, snapshots, traces', refs, SnapshotsOf(refs, snapshots))
      && LabelsPruned(feedback, jobs, traces', FeedbackWithout(feedback, gone), JobsWithout(feedback, jobs, gone))
  {
    hide TracesPruned, SnapshotsPruned, LabelsPruned, Ordered;
    TracesArePruned(traces, transitions, cutoff);
    SnapshotsArePruned(traces, transitions, references, snapshots, Expired(traces, cutoff));
    LabelsArePruned(traces, feedback, jobs, Expired(traces, cutoff));
  }

  /** Every final row of `t` was written at or after the cut-off. */
  ghost predicate WrittenLate(transitions: seq<Row>, cutoff: int, t: TraceId) {
    forall r | r in transitions && r.payload.traceId == t && Terminal(r.payload.to) :: r.payload.at >= cutoff
  }

  lemma LateIsKept(traces: map<TraceId, TraceRow>, transitions: seq<Row>, cutoff: int, t: TraceId)
    requires TracesOk(traces, transitions) && t in traces
    requires WrittenLate(transitions, cutoff, t)
    ensures traces[t].completedAt.None? || traces[t].completedAt.value >= cutoff
  {
    if traces[t].completedAt.Some? {
      var r :| r in transitions && FinalRow(r, t, traces[t].finalState.value, traces[t].completedAt.value);
    }
  }

  lemma KeptWhenLate(traces: map<TraceId, TraceRow>, transitions: seq<Row>, cutoff: int)
    requires TracesOk(traces, transitions)
    ensures
      var gone := Expired(traces, cutoff);
      forall t | t in traces && WrittenLate(transitions, cutoff, t) ::
        t in TracesWithout(traces, gone) && Of(Pruned(transitions, gone), t) == Of(transitions, t)
  {
    var gone := Expired(traces, cutoff);
    forall t | t in traces && WrittenLate(transitions, cutoff, t)
      ensures t in TracesWithout(traces, gone) && Of(Pruned(transitions, gone), t) == Of(transitions, t)
    {
      LateIsKept(traces, transitions, cutoff, t);
      PrunedOf(transitions, gone, t);
    }
  }

  /** A trace without a final transition is never removed by a cut-off, and keeps its rows. */
  lemma InFlightStays(traces: map<TraceId, TraceRow>, transitions: seq<Row>, cutoff: int, t: TraceId)
    requires TracesOk(traces, transitions) && t in traces && !Finished(transitions, t)
    ensures
      var gone := Expired(traces, cutoff);
      t in TracesWithout(traces, gone) && Of(Pruned(transitions, gone), t) == Of(transitions, t)
  {
    PrunedOf(transitions, Expired(traces, cutoff), t);
  }

  // ------------------------------------------------------------------ labelling

  /** A trace row after label `status` was stored as feedback `f`. */
  function AfterLabel(row: TraceRow, status: LabelStatus, f: FeedbackId): TraceRow {
    row.(labelStatus := status, currentFeedback := Some(f))
  }

  lemma AfterLabelIs(row: TraceRow, status: LabelStatus, f: FeedbackId)
    ensures
      var row' := AfterLabel(row, status, f);
      && row'.labelStatus == status && row'.currentFeedback == Some(f)
      && row' == row.(labelStatus := status, currentFeedback := Some(f))
  {
  }

  /** A label completes no trace. */
  lemma LabelKeepsTraces(traces: map<TraceId, TraceRow>, transitions: seq<Row>, t: TraceId, status: LabelStatus,
                         f: FeedbackId)
    requires TracesOk(traces, transitions) && t in traces
    ensures TracesOk(traces[t := AfterLabel(traces[t], status, f)], transitions)
  {
  }

  /**
   * Storing a label keeps feedback and traces pointing at each other, and moves
   * the lock of exactly that trace by one: the pair it was accepted for is new.
   */
  lemma LabelKeepsTables(traces: map<TraceId, TraceRow>, transitions: seq<Row>, feedback: map<FeedbackId, Feedback>,
                         seen: set<TraceId>, accepted: set<(TraceId, nat)>, t: TraceId, f: FeedbackId, row: Feedback)
    requires LabelsOk(traces, feedback) && LocksOk(traces, feedback, seen, accepted) && TracesOk(traces, transitions)
    requires t in traces && row.traceId == t
    requires traces[t].currentFeedback == Some(f) || (traces[t].currentFeedback == None && f !in feedback)
    requires row.revisionNo == Revision(traces, feedback, t) + 1
    ensures
      var traces' := traces[t := AfterLabel(traces[t], row.labelStatus, f)];
      && LabelsOk(traces', feedback[f := row])
      && LocksOk(traces', feedback[f := row], seen, accepted + {(t, Revision(traces, feedback, t))})
      && TracesOk(traces', transitions)
      && Revision(traces', feedback[f := row], t) == row.revisionNo
    ensures (t, Revision(traces, feedback, t)) !in accepted
  {
    var traces', feedback' := traces[t := AfterLabel(traces[t], row.labelStatus, f)], feedback[f := row];
    LabelKeepsTraces(traces, transitions, t, row.labelStatus, f);
    hide TracesOk;
    forall g | g in feedback'
      ensures LabelOk(traces', feedback'[g], g)
    {
      if g != f {
        assert LabelOk(traces, feedback[g], g);
      }
    }
    assert f in feedback ==> LabelOk(traces, feedback[f], f);
    forall u | u in traces && u != t
      ensures Revision(traces', feedback', u) == Revision(traces, feedback, u)
      ensures traces[u].currentFeedback != Some(f)
    {
    }
  }

  /** A feedback row changed only in its status and target stays the label of its trace. */
  lemma StatusKeepsLabels(traces: map<TraceId, TraceRow>, feedback: map<FeedbackId, Feedback>, seen: set<TraceId>,
                          accepted: set<(TraceId, nat)>, feedback': map<FeedbackId, Feedback>)
    requires LabelsOk(traces, feedback) && LocksOk(traces, feedback, seen, accepted) && FeedbackKeys(traces, feedback)
    requires SameLabels(feedback, feedback')
    ensures LabelsOk(traces, feedback') && LocksOk(traces, feedback', seen, accepted) && FeedbackKeys(traces, feedback')
  {
    forall f | f in feedback'
      ensures LabelOk(traces, feedback'[f], f)
    {
      assert LabelOk(traces, feedback[f], f);
    }
    forall t
      ensures Revision(traces, feedback', t) == Revision(traces, feedback, t)
    {
    }
  }

  ghost predicate SameLabels(feedback: map<FeedbackId, Feedback>, feedback': map<FeedbackId, Feedback>) {
    && feedback'.Keys == feedback.Keys
    && (forall f | f in feedback && f in feedback' ::
          feedback'[f].traceId == feedback[f].traceId && feedback'[f].revisionNo == feedback[f].revisionNo
          && feedback'[f].labelStatus == feedback[f].labelStatus)
  }

  /** Locks survive the removal of traces: a removed trace never comes back. */
  lemma PruneKeepsLocks(traces: map<TraceId, TraceRow>, feedback: map<FeedbackId, Feedback>, seen: set<TraceId>,
                        accepted: set<(TraceId, nat)>, gone: set<TraceId>)
    requires LabelsOk(traces, feedback) && LocksOk(traces, feedback, seen, accepted)
    ensures LocksOk(TracesWithout(traces, gone), FeedbackWithout(feedback, gone), seen, accepted)
  {
    var traces', feedback' := TracesWithout(traces, gone), FeedbackWithout(feedback, gone);
    forall t | t in traces'
      ensures Revision(traces', feedback', t) == Revision(traces, feedback, t)
    {
    }
  }
}
