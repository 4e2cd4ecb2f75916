/**
 * The audit store worker: the only writer of the audit database. Every method is
 * one transaction; one that fails leaves every table as it was.
 */
module AuditStorage {
  import opened Wrappers
  import opened Trace
  import opened HmacChain
  import opened Outbox
  import opened AuditTables

  datatype StoreError = StateInvalid | Unavailable | DuplicateTrace

  /** What a successful prune reports. */
  datatype PruneResult = PruneResult(deletedTraces: nat, deletedSnapshots: nat, deletedSessions: nat)

  /** A label as submitted; the schema guarantees that a correction has both its reply and its cues. */
  datatype LabelRequest = LabelRequest(
    traceId: TraceId, expectedRevisionNo: nat, score: nat, correction: Option<Correction>)

  datatype PendingSyncJob = PendingSyncJob(jobId: JobId, feedbackId: FeedbackId, action: Action)

  class AuditStore {
    const hmac: Hmac
    var sessions: map<SessionId, Session>
    var traces: map<TraceId, TraceRow>
    var transitions: seq<Row>
    var references: set<Reference>
    var snapshots: map<SnapshotId, Snapshot>
    var feedback: map<FeedbackId, Feedback>
    var jobs: map<JobId, Job>
    /** Fresh identifiers: a time-ordered UUID never repeats. */
    var nextFeedbackId: FeedbackId
    var nextJobId: JobId
    /** Every trace id ever stored: no UUID is handed out twice. */
    var seen: set<TraceId>
    /** Every (trace, expected revision) a label was accepted for. */
    ghost var accepted: set<(TraceId, nat)>

    constructor (hmac: Hmac)
      ensures Valid() && this.hmac == hmac && accepted == {} && jobs == map[] && traces == map[]
    {
      this.hmac := hmac;
      sessions, traces, transitions, references, snapshots := map[], map[], [], {}, map[];
      feedback, jobs, nextFeedbackId, nextJobId := map[], map[], 0, 0;
      seen, accepted := {}, {};
    }

    ghost predicate Valid()
      reads this
    {
      && ForeignKeys(sessions, traces, transitions, references, snapshots, feedback, jobs)
      && Ordered(transitions) && Intact(transitions, hmac)
      && TracesOk(traces, transitions)
      && SnapshotsOk(references, snapshots)
      && LabelsOk(traces, feedback)
      && OutboxOk(feedback, jobs)
      && LocksOk(traces, feedback, seen, accepted)
      && NeverEnded(sessions)
      && (forall f | f in feedback :: f < nextFeedbackId)
      && (forall j | j in jobs :: j < nextJobId)
    }

    // ---------------------------------------------------------------- traces

    method CreateSession(id: SessionId) returns (r: Result<(), StoreError>)
      requires Valid()
      modifies this`sessions
      ensures Valid()
      ensures r.Ok? <==> id !in old(sessions)
      ensures sessions == if r.Ok? then old(sessions)[id := Session(None)] else old(sessions)
    {
      hide Intact, TracesOk, SnapshotsOk, LabelsOk, OutboxOk, Ordered;
      if id in sessions {
        return Err(Unavailable);
      }
      sessions := sessions[id := Session(None)];
      r := Ok(());
    }

    /** Stores a new trace. A frame already audited is told apart from an outage. */
    method CreateTrace(t: TraceId, s: SessionId, message: string) returns (r: Result<(), StoreError>)
      requires Valid()
      requires t in seen ==> t in traces
      modifies this`traces, this`seen
      ensures Valid()
      ensures r == Err(DuplicateTrace) <==>
        t in old(traces)
        || exists u :: u in old(traces) && old(traces)[u].sessionId == s && old(traces)[u].messageId == message
      ensures r == Err(Unavailable) <==> r != Err(DuplicateTrace) && s !in sessions
      ensures r.Ok? ==> traces == old(traces)[t := TraceRow(s, message, None, None, Unlabeled, None)]
      ensures r.Err? ==> traces == old(traces)
      ensures seen == if r.Ok? then old(seen) + {t} else old(seen)
    {
      hide Intact, SnapshotsOk, OutboxOk, Ordered, TracesOk, LabelsOk, LocksOk, ReferenceKeys, JobKeys;
      if t in traces || exists u | u in traces :: SameMessage(traces[u], s, message) {
        return Err(DuplicateTrace);
      }
      if s !in sessions {
        return Err(Unavailable);
      }
      var row := TraceRow(s, message, None, None, Unlabeled, None);
      TraceAdded(traces, transitions, feedback, seen, accepted, t, row);
      traces := traces[t := row];
      seen := seen + {t};
      r := Ok(());
    }

    static predicate SameMessage(row: TraceRow, s: SessionId, message: string) {
      row.sessionId == s && row.messageId == message
    }

    /** The greatest sequence number of a trace and the MAC that row carries. */
    method MaxSequence(t: TraceId) returns (max: nat, prev: Option<Mac>)
      requires Valid()
      ensures max == |Of(transitions, t)|
      ensures prev == if max == 0 then None else Some(Of(transitions, t)[max - 1].mac)
    {
      hide ForeignKeys, TracesOk, SnapshotsOk, LabelsOk, OutboxOk, Ordered;
      assert ChainOk(Of(transitions, t), hmac);
      OfMembers(transitions, t);
      ghost var chain := Of(transitions, t);
      max, prev := 0, None;
      for i := 0 to |transitions|
        invariant max <= |chain|
        invariant max > 0 ==> prev == Some(chain[max - 1].mac)
        invariant max == 0 ==> prev == None
        invariant forall j | 0 <= j < i && transitions[j].payload.traceId == t :: transitions[j].payload.seqNo <= max
      {
        var row := transitions[i];
        if row.payload.traceId == t && row.payload.seqNo > max {
          assert row in chain;
          ghost var k :| 0 <= k < |chain| && chain[k] == row;
          assert LinkOk(chain, k, hmac);
          max, prev := row.payload.seqNo, Some(row.mac);
        }
      }
      if |chain| > 0 {
        assert LinkOk(chain, |chain| - 1, hmac);
        assert chain[|chain| - 1] in transitions;
      }
    }

    /**
     * Writes the next transition of a trace with its snapshots. Only the pair of
     * states is checked: that `from` is the state the trace is in is the caller's
     * business.
     */
    method AppendTransition(t: TraceId, from: Option<TraceState>, to: TraceState, reason: Reason, now: int,
                            snaps: seq<SnapshotInput>) returns (r: Result<(), StoreError>)
      requires Valid()
      modifies this`traces, this`transitions, this`references, this`snapshots
      ensures Valid()
      ensures r == Err(StateInvalid) <==> !Allowed(from, to)
      ensures r.Ok? <==>
        && Allowed(from, to) && t in old(traces) && DistinctSnaps(snaps)
        && forall s | s in snaps :: s.id !in old(snapshots)
      ensures r.Ok? ==>
        var row := NextRow(Of(old(transitions), t), t, from, to, reason, now, hmac);
        && transitions == Inserted(old(transitions), row)
        && SnapsStored(old(references), old(snapshots), references, snapshots, t, row.payload.seqNo, now, snaps)
        && traces == old(traces)[t := AfterTransition(old(traces)[t], to, now)]
      ensures r.Ok? ==>
        && Appended(old(transitions), transitions, t, from, to, reason, now, hmac)
        && (Terminal(to) ==> traces[t].finalState == Some(to) && traces[t].completedAt == Some(now))
        && traces[t] == old(traces)[t].(finalState := traces[t].finalState, completedAt := traces[t].completedAt)
        && (!Terminal(to) ==> traces == old(traces))
      ensures r.Ok? ==>
        forall s | s in snaps ::
          && Reference(t, |Of(old(transitions), t)| + 1, s.id, s.role) in references
          && s.id in snapshots && snapshots[s.id] == Snapshot(s.content, now)
      ensures r.Err? ==>
        && traces == old(traces) && transitions == old(transitions)
        && references == old(references) && snapshots == old(snapshots)
      ensures RowsGrow(old(transitions), transitions)
    {
      hide Intact, OutboxOk, Ordered, Of, Inserted, SnapshotsOk, TracesOk, LabelsOk, LocksOk, DistinctSnaps;
      hide SessionKeys, TransitionKeys, ReferenceKeys, FeedbackKeys, JobKeys, References, SnapsStored;
      InsertedGrows(transitions, NextRow(Of(transitions, t), t, from, to, reason, now, hmac));
      RowsGrowTrans(transitions, transitions, transitions);
      hide RowsGrow;
      NextIsAppended(transitions, t, from, to, reason, now, hmac);
      hide Appended;
      if !Allowed(from, to) {
        return Err(StateInvalid);
      }
      var maxSeq, prevHmac := MaxSequence(t);
      if t !in traces {
        return Err(Unavailable);
      }
      var payload := Payload(t, maxSeq + 1, from, to, reason, now, prevHmac);
      var row := Row(payload, hmac(payload));
      assert row == NextRow(Of(transitions, t), t, from, to, reason, now, hmac);
      AppendKeepsIntact(transitions, t, from, to, reason, now, hmac);
      AppendKeepsTraces(traces, transitions, row);
      CompletionKeepsLabels(traces, feedback, seen, accepted, t, to, now);
      ghost var savedReferences, savedSnapshots := references, snapshots;
      var stored := StoreSnapshots(t, maxSeq + 1, now, snaps);
      if !stored {
        return Err(Unavailable);
      }
      StoredKeys(savedReferences, savedSnapshots, references, snapshots, t, maxSeq + 1, now, snaps);
      AppendKeepsKeys(traces, transitions, row, savedReferences, savedSnapshots, snaps, snapshots);
      SameTraces(sessions, traces, feedback, t, AfterTransition(traces[t], to, now));
      transitions := Inserted(transitions, row);
      traces := traces[t := AfterTransition(traces[t], to, now)];
      r := Ok(());
    }

    /** Stores the snapshots of one transition; a taken id undoes all of them. */
    method StoreSnapshots(t: TraceId, seqNo: nat, now: int, snaps: seq<SnapshotInput>) returns (ok: bool)
      requires SnapshotsOk(references, snapshots) && ReferenceKeys(transitions, references, snapshots)
      modifies this`references, this`snapshots
      ensures SnapshotsOk(references, snapshots)
      ensures ok <==> Storable(snaps, old(snapshots))
      ensures ok ==> SnapsStored(old(references), old(snapshots), references, snapshots, t, seqNo, now, snaps)
      ensures !ok ==> references == old(references) && snapshots == old(snapshots)
    {
      var savedReferences, savedSnapshots := references, snapshots;
      NothingStored(references, snapshots, t, seqNo, now);
      assert snaps[..0] == [];
      hide SnapshotsOk, SnapsStored, Storable;
      for i := 0 to |snaps|
        invariant SnapsStored(savedReferences, savedSnapshots, references, snapshots, t, seqNo, now, snaps[..i])
        invariant SnapshotsOk(references, snapshots) && AllStored(references, snapshots)
      {
        if snaps[i].id in snapshots {
          TakenId(savedReferences, savedSnapshots, references, snapshots, t, seqNo, now, snaps, i);
          references, snapshots := savedReferences, savedSnapshots;
          return false;
        }
        StoreSnapshot(t, seqNo, now, snaps[i], savedReferences, savedSnapshots, snaps[..i]);
        assert snaps[..i + 1] == snaps[..i] + [snaps[i]];
      }
      assert snaps[..|snaps|] == snaps;
      StoredAreNew(savedReferences, savedSnapshots, references, snapshots, t, seqNo, now, snaps);
      ok := true;
    }

    /** Stores one snapshot, whose id is not taken, and its reference. */
    method StoreSnapshot(t: TraceId, seqNo: nat, now: int, snap: SnapshotInput, ghost savedReferences: set<Reference>,
                         ghost savedSnapshots: map<SnapshotId, Snapshot>, ghost done: seq<SnapshotInput>)
      requires SnapsStored(savedReferences, savedSnapshots, references, snapshots, t, seqNo, now, done)
      requires SnapshotsOk(references, snapshots) && AllStored(references, snapshots) && snap.id !in snapshots
      modifies this`references, this`snapshots
      ensures SnapsStored(savedReferences, savedSnapshots, references, snapshots, t, seqNo, now, done + [snap])
      ensures SnapshotsOk(references, snapshots) && AllStored(references, snapshots)
    {
      hide SnapshotsOk, SnapsStored;
      ReferenceAdded(references, snapshots, Reference(t, seqNo, snap.id, snap.role), Snapshot(snap.content, now));
      OneMoreStored(savedReferences, savedSnapshots, references, snapshots, t, seqNo, now, done, snap);
      snapshots := snapshots[snap.id := Snapshot(snap.content, now)];
      references := references + {Reference(t, seqNo, snap.id, snap.role)};
    }

    /** Recomputes every chain: a store that only this worker wrote to is always accepted. */
    method CheckIntegrity(structureOk: bool, migration: Option<nat>) returns (r: Result<Report, IntegrityError>)
      requires Valid()
      ensures r.Ok? <==> structureOk && migration.Some?
      ensures r.Ok? ==> r.value == Report(migration.value, |transitions|)
    {
      hide ForeignKeys, TracesOk, SnapshotsOk, LabelsOk, OutboxOk, LocksOk, Ordered, Intact;
      r := VerifyIntegrity(transitions, hmac, structureOk, migration);
    }

    // ---------------------------------------------------------------- retention

    /**
     * Deletes every trace completed before the cut-off with all that hangs on it,
     * in an order that never leaves a dangling key after any statement. The last
     * statement asks for ended sessions, and no session is ever marked ended.
     */
    method PruneTracesOlderThan(cutoff: int) returns (r: PruneResult)
      requires Valid()
      modifies this`sessions, this`traces, this`transitions, this`references, this`snapshots, this`feedback, this`jobs
      ensures Valid()
      ensures
        var gone := Expired(old(traces), cutoff);
        && traces == TracesWithout(old(traces), gone)
        && transitions == Pruned(old(transitions), gone)
        && references == ReferencesWithout(old(references), gone)
        && snapshots == SnapshotsOf(references, old(snapshots))
        && feedback == FeedbackWithout(old(feedback), gone)
        && jobs == JobsWithout(old(feedback), old(jobs), gone)
      ensures
        && r.deletedTraces + |traces| == |old(traces)|
        && r.deletedSnapshots + |snapshots| == |old(snapshots)|
        && r.deletedSessions == 0 && sessions == old(sessions)
      ensures TracesPruned(old(traces), old(transitions), cutoff, traces, transitions)
      ensures SnapshotsPruned(old(references), old(snapshots), traces, references, snapshots)
      ensures LabelsPruned(old(feedback), old(jobs), traces, feedback, jobs)
      ensures forall t | t in old(traces) && WrittenLate(old(transitions), cutoff, t) ::
        t in traces && Of(transitions, t) == Of(old(transitions), t)
      ensures JobsFollow(old(jobs), jobs)
    {
      hide Intact, OutboxOk, Ordered, SnapshotsOk, TracesOk, LabelsOk, LocksOk, ForeignKeys, JobsFollow, NeverEnded;
      hide TracesPruned, SnapshotsPruned, LabelsPruned, WrittenLate;
      hide Expired, TracesWithout, ReferencesWithout, SnapshotsOf, SessionsLeft, FeedbackWithout, JobsWithout, Pruned;
      var gone := Expired(traces, cutoff);
      PruneOrder(sessions, traces, transitions, references, snapshots, feedback, jobs, gone, cutoff);
      PruneKeepsTables(traces, transitions, references, snapshots, feedback, jobs, seen, accepted, gone, hmac);
      NoSessionLeaves(sessions, TracesWithout(traces, gone), cutoff);
      PruneShrinks(sessions, traces, ReferencesWithout(references, gone), snapshots, gone, cutoff);
      KeptWhenLate(traces, transitions, cutoff);
      PruneIsExact(sessions, traces, transitions, references, snapshots, feedback, jobs, cutoff);

      references := ReferencesWithout(references, gone);
      assert ForeignKeys(sessions, traces, transitions, references, snapshots, feedback, jobs);
      var snapshotCount, traceCount, sessionCount := |snapshots|, |traces|, |sessions|;
      snapshots := SnapshotsOf(references, snapshots);
      assert ForeignKeys(sessions, traces, transitions, references, snapshots, feedback, jobs);
      transitions := Pruned(transitions, gone);
      assert ForeignKeys(sessions, traces, transitions, references, snapshots, feedback, jobs);
      jobs := JobsWithout(feedback, jobs, gone);
      assert ForeignKeys(sessions, traces, transitions, references, snapshots, feedback, jobs);
      feedback := FeedbackWithout(feedback, gone);
      assert ForeignKeys(sessions, traces, transitions, references, snapshots, feedback, jobs);
      traces := TracesWithout(traces, gone);
      assert ForeignKeys(sessions, traces, transitions, references, snapshots, feedback, jobs);
      sessions := SessionsLeft(sessions, traces, cutoff);
      r := PruneResult(traceCount - |traces|, snapshotCount - |snapshots|, sessionCount - |sessions|);
    }

    // ---------------------------------------------------------------- labels and outbox

    /**
     * Stores a label over the one that stands. `persona` says whether the trace
     * carries a persona binding and `source` is its direct decision, both read
     * from its decrypted snapshots. Neither the bad-case trigger nor the unique
     * idempotency key ever refuses the job.
     */
    method SubmitLabel(input: LabelRequest, persona: bool, source: Source, now: int)
      returns (r: Result<LabelStatus, StoreError>)
      requires Valid()
      modifies this`traces, this`feedback, this`jobs, this`nextFeedbackId, this`nextJobId, this`accepted
      ensures Valid()
      ensures r.Ok? <==>
        && input.traceId in old(traces)
        && (exists row :: row in transitions && Shown(row, input.traceId))
        && persona
        && input.expectedRevisionNo == Revision(old(traces), old(feedback), input.traceId)
      ensures r.Ok? ==>
        var t := input.traceId;
        var known := old(traces)[t].currentFeedback;
        var f := if known.Some? then known.value else old(nextFeedbackId);
        var target := if known.Some? && f in old(feedback) then old(feedback)[f].targetPointId else None;
        var row := LabelRow(input, source, target);
        && r.value == row.labelStatus
        && feedback == old(feedback)[f := row]
        && jobs == Relabelled(old(jobs), f, row, ActionOf(row), old(nextJobId), now)
        && traces == old(traces)[t := AfterLabel(old(traces)[t], row.labelStatus, f)]
      ensures r.Ok? ==>
        var t := input.traceId;
        var known := old(traces)[t].currentFeedback;
        var f := if known.Some? then known.value else old(nextFeedbackId);
        && f in feedback && feedback == old(feedback)[f := feedback[f]]
        && Labelled(feedback[f], input, source) && r.value == feedback[f].labelStatus
        && (known.Some? && f in old(feedback) ==> feedback[f].targetPointId == old(feedback)[f].targetPointId)
        && (known.None? ==> feedback[f].targetPointId == None)
        && JobWritten(old(jobs), jobs, f, input, source, old(nextJobId), now)
        && (feedback[f].syncStatus.Pending? <==> old(nextJobId) in jobs)
        && (feedback[f].syncStatus.NotRequired? <==> old(nextJobId) !in jobs)
        && t in traces && traces == old(traces)[t := traces[t]]
        && traces[t].labelStatus == r.value && traces[t].currentFeedback == Some(f)
        && traces[t] == old(traces)[t].(labelStatus := r.value, currentFeedback := Some(f))
      ensures r.Ok? ==>
        && (input.traceId, input.expectedRevisionNo) !in old(accepted)
        && accepted == old(accepted) + {(input.traceId, input.expectedRevisionNo)}
        && nextJobId == old(nextJobId) + 1
      ensures r.Err? ==>
        && r.error == StateInvalid
        && traces == old(traces) && feedback == old(feedback) && jobs == old(jobs)
        && accepted == old(accepted) && nextJobId == old(nextJobId)
      ensures JobsFollow(old(jobs), jobs)
    {
      ShownIff(transitions, input.traceId);
      hide Intact, OutboxOk, Ordered, SnapshotsOk, TracesOk, LabelsOk, Of, HasSuggestion, Revision, LocksOk, Shown;
      hide ForeignKeys, AfterLabel, Relabelled, ActionOf, JobAccepted;
      assert JobsFollow(jobs, jobs);
      hide JobsFollow;
      var t := input.traceId;
      if t !in traces || !HasSuggestion(transitions, t) || !persona {
        return Err(StateInvalid);
      }
      LabelOfTrace(traces, feedback, t);
      var known := traces[t].currentFeedback;
      var observed := if known.Some? then feedback[known.value].revisionNo else 0;
      if observed != input.expectedRevisionNo {
        return Err(StateInvalid);
      }
      var f := if known.Some? then known.value else nextFeedbackId;
      var row := LabelRow(input, source, if known.Some? then feedback[f].targetPointId else None);
      LabelAccepted(input, source, row, f, now);
      LabelIsExact(input, source, row, jobs, f, nextJobId, now);
      AfterLabelIs(traces[t], row.labelStatus, f);
      hide Labelled, JobWritten;
      RelabelFollows(jobs, f, row, ActionOf(row), nextJobId, now);
      hide LabelRow;
      var stored := WriteLabel(t, f, row, now);
      r := if stored then Ok(row.labelStatus) else Err(Unavailable);
    }

    /** What storing a label may rely on: its job is accepted, and every invariant survives. */
    lemma LabelAccepted(input: LabelRequest, source: Source, row: Feedback, f: FeedbackId, now: int)
      requires Valid() && input.traceId in traces && row == LabelRow(input, source, row.targetPointId)
      requires f == if traces[row.traceId].currentFeedback.Some? then traces[row.traceId].currentFeedback.value
                    else nextFeedbackId
      requires input.expectedRevisionNo == Revision(traces, feedback, input.traceId)
      ensures
        var t := input.traceId;
        var jobs' := Relabelled(jobs, f, row, ActionOf(row), nextJobId, now);
        var traces' := traces[t := AfterLabel(traces[t], row.labelStatus, f)];
        && row.traceId == t && row.revisionNo == input.expectedRevisionNo + 1
        && (ActionOf(row).Some? ==>
          JobAccepted(row, WithoutOpen(jobs, f), JobFor(f, row.revisionNo, ActionOf(row).value, now)))
        && (traces[t].currentFeedback.None? ==> WithoutOpen(jobs, f) == jobs)
        && ForeignKeys(sessions, traces', transitions, references, snapshots, feedback[f := row], jobs')
        && TracesOk(traces', transitions)
        && LabelsOk(traces', feedback[f := row])
        && OutboxOk(feedback[f := row], jobs')
        && LocksOk(traces', feedback[f := row], seen, accepted + {(t, input.expectedRevisionNo)})
        && (t, input.expectedRevisionNo) !in accepted
        && jobs'.Keys <= jobs.Keys + {nextJobId}
        && f <= nextFeedbackId
    {
      hide Intact, OutboxOk, Ordered, SnapshotsOk, TracesOk, LabelsOk, LocksOk, Of, Revision, ForeignKeys, AfterLabel;
      RowAsRequired(input, source, row);
      var t := input.traceId;
      LabelOfTrace(traces, feedback, t);
      LabelKeeps(feedback, jobs, f, row, ActionOf(row), nextJobId, now);
      LabelKeepsTables(traces, transitions, feedback, seen, accepted, t, f, row);
      LabelKeepsKeys(sessions, traces, transitions, references, snapshots, feedback, jobs, t, f, row, ActionOf(row),
                     nextJobId, now);
      KeyIsNew(jobs, f, row.revisionNo);
    }

    /** The statements of an accepted label; a refused job would undo them all. */
    method WriteLabel(t: TraceId, f: FeedbackId, row: Feedback, now: int) returns (stored: bool)
      requires t in traces && row.revisionNo >= 1
      requires traces[t].currentFeedback.None? ==> WithoutOpen(jobs, f) == jobs
      modifies this`traces, this`feedback, this`jobs, this`nextFeedbackId, this`nextJobId, this`accepted
      ensures stored <==> (ActionOf(row).Some? ==>
        JobAccepted(row, WithoutOpen(old(jobs), f), JobFor(f, row.revisionNo, ActionOf(row).value, now)))
      ensures stored ==>
        && feedback == old(feedback)[f := row]
        && jobs == Relabelled(old(jobs), f, row, ActionOf(row), old(nextJobId), now)
        && traces == old(traces)[t := AfterLabel(old(traces)[t], row.labelStatus, f)]
        && accepted == old(accepted) + {(t, row.revisionNo - 1)}
        && nextJobId == old(nextJobId) + 1 && nextFeedbackId == old(nextFeedbackId) + 1
      ensures !stored ==>
        && feedback == old(feedback) && jobs == old(jobs) && traces == old(traces)
        && accepted == old(accepted) && nextJobId == old(nextJobId)
    {
      hide WithoutOpen, ActionOf, AfterLabel;
      var known := traces[t].currentFeedback;
      var action := ActionOf(row);
      var savedFeedback, savedJobs, savedTraces := feedback, jobs, traces;
      if known.Some? {
        jobs := WithoutOpen(jobs, f);
      }
      feedback := feedback[f := row];
      traces := traces[t := AfterLabel(traces[t], row.labelStatus, f)];
      if action.Some? {
        var inserted := InsertJob(nextJobId, JobFor(f, row.revisionNo, action.value, now));
        if !inserted {
          feedback, jobs, traces := savedFeedback, savedJobs, savedTraces;
          return false;
        }
      }
      nextFeedbackId, nextJobId := nextFeedbackId + 1, nextJobId + 1;
      accepted := accepted + {(t, row.revisionNo - 1)};
      stored := true;
    }

    /** The insert statement: refused by the bad-case trigger or by a taken idempotency key. */
    method InsertJob(id: JobId, job: Job) returns (ok: bool)
      requires job.feedbackId in feedback
      modifies this`jobs
      ensures ok <==> JobAccepted(feedback[job.feedbackId], old(jobs), job)
      ensures jobs == if ok then old(jobs)[id := job] else old(jobs)
    {
      if job.key.action.SetBadCase? && !BadCaseAllowed(feedback[job.feedbackId]) {
        return false;
      }
      if exists j | j in jobs :: jobs[j].key == job.key {
        return false;
      }
      jobs := jobs[id := job];
      ok := true;
    }

    /** PENDING to RUNNING for an oldest pending job; nothing when there is none. */
    method ClaimNextSyncJob(now: int) returns (r: Option<PendingSyncJob>)
      requires Valid()
      modifies this`jobs
      ensures Valid()
      ensures r.None? <==> forall j | j in old(jobs) :: !old(jobs)[j].state.Pending?
      ensures r.None? ==> jobs == old(jobs)
      ensures r.Some? ==>
        && r.value.jobId in old(jobs) && old(jobs)[r.value.jobId].state.Pending?
        && forall j | j in old(jobs) && old(jobs)[j].state.Pending? ::
             old(jobs)[r.value.jobId].createdAt <= old(jobs)[j].createdAt
      ensures r.Some? ==>
        var j := r.value.jobId;
        && OldestCreated(old(jobs), InState(old(jobs), JobState.Pending), j)
        && r.value == PendingSyncJob(j, old(jobs)[j].feedbackId, old(jobs)[j].key.action)
        && jobs == old(jobs)[j := old(jobs)[j].(state := Running, updatedAt := now)]
        && r.value.feedbackId in feedback && feedback[r.value.feedbackId].traceId in traces
        && Justified(feedback[r.value.feedbackId], r.value.action)
        && (r.value.action.Upsert? ==>
              feedback[r.value.feedbackId].correction.Some? || feedback[r.value.feedbackId].score >= 85)
        && (r.value.action.SetBadCase? ==>
              && feedback[r.value.feedbackId].labelStatus.Rejected? && feedback[r.value.feedbackId].isBadCase
              && feedback[r.value.feedbackId].source.golden && feedback[r.value.feedbackId].source.pointId.Some?)
      ensures JobsFollow(old(jobs), jobs)
    {
      hide Intact, OutboxOk, Ordered, SnapshotsOk, TracesOk, LabelsOk, LocksOk;
      hide SessionKeys, TransitionKeys, ReferenceKeys;
      var pending := InState(jobs, JobState.Pending);
      if pending == {} {
        assert forall j | j in jobs && jobs[j].state.Pending? :: j in pending;
        return None;
      }
      OldestExists(jobs, pending);
      var j :| j in pending && OldestCreated(jobs, pending, j);
      OpenJobIsJustified(feedback, jobs, j);
      var job := jobs[j].(state := Running, updatedAt := now);
      MoveKeeps(feedback, jobs, j, job, feedback[job.feedbackId]);
      assert feedback[job.feedbackId := feedback[job.feedbackId]] == feedback;
      jobs := jobs[j := job];
      r := Some(PendingSyncJob(j, job.feedbackId, job.key.action));
    }

    /** RUNNING to SUCCEEDED; refused, changing nothing, unless the job is RUNNING. */
    method CompleteSyncJob(jobId: JobId, feedbackId: FeedbackId, target: PointId, now: int)
      returns (r: Result<(), StoreError>)
      requires Valid()
      requires jobId in jobs ==> jobs[jobId].feedbackId == feedbackId
      modifies this`jobs, this`feedback
      ensures Valid()
      ensures r.Ok? <==> jobId in old(jobs) && old(jobs)[jobId].state.Running?
      ensures r.Ok? ==>
        && jobs == old(jobs)[jobId := old(jobs)[jobId].(state := Succeeded, updatedAt := now)]
        && feedbackId in old(feedback)
        && feedback == old(feedback)[
             feedbackId := old(feedback)[feedbackId].(syncStatus := Synced, targetPointId := Some(target))]
      ensures r.Err? ==> r.error == StateInvalid && jobs == old(jobs) && feedback == old(feedback)
      ensures JobsFollow(old(jobs), jobs)
    {
      hide Intact, OutboxOk, Ordered, SnapshotsOk, TracesOk, LabelsOk, LocksOk;
      hide SessionKeys, TransitionKeys, ReferenceKeys, FeedbackKeys;
      if jobId !in jobs || !jobs[jobId].state.Running? {
        return Err(StateInvalid);
      }
      var job := jobs[jobId].(state := Succeeded, updatedAt := now);
      var row := feedback[feedbackId].(syncStatus := Synced, targetPointId := Some(target));
      MoveKeeps(feedback, jobs, jobId, job, row);
      StatusKeepsLabels(traces, feedback, seen, accepted, feedback[feedbackId := row]);
      jobs := jobs[jobId := job];
      feedback := feedback[feedbackId := row];
      r := Ok(());
    }

    /** RUNNING to FAILED with one more attempt, or with the cap when the failure is permanent. */
    method FailSyncJob(jobId: JobId, feedbackId: FeedbackId, permanent: bool, now: int)
      returns (r: Result<(), StoreError>)
      requires Valid()
      requires jobId in jobs ==> jobs[jobId].feedbackId == feedbackId
      modifies this`jobs, this`feedback
      ensures Valid()
      ensures r.Ok? <==> jobId in old(jobs) && old(jobs)[jobId].state.Running?
      ensures r.Ok? ==>
        var attempts := if permanent then MAX_SAFE_INTEGER else old(jobs)[jobId].attempts + 1;
        && jobs == old(jobs)[jobId :=
             old(jobs)[jobId].(state := JobState.Failed, attempts := attempts, updatedAt := now)]
        && feedbackId in old(feedback)
        && feedback == old(feedback)[feedbackId := old(feedback)[feedbackId].(syncStatus := SyncStatus.Failed)]
      ensures r.Err? ==> r.error == StateInvalid && jobs == old(jobs) && feedback == old(feedback)
      ensures JobsFollow(old(jobs), jobs)
    {
      hide Intact, OutboxOk, Ordered, SnapshotsOk, TracesOk, LabelsOk, LocksOk;
      hide SessionKeys, TransitionKeys, ReferenceKeys, FeedbackKeys;
      if jobId !in jobs || !jobs[jobId].state.Running? {
        return Err(StateInvalid);
      }
      var nextAttempts := if permanent then MAX_SAFE_INTEGER else jobs[jobId].attempts + 1;
      var job := jobs[jobId].(state := JobState.Failed, attempts := nextAttempts, updatedAt := now);
      var row := feedback[feedbackId].(syncStatus := SyncStatus.Failed);
      MoveKeeps(feedback, jobs, jobId, job, row);
      StatusKeepsLabels(traces, feedback, seen, accepted, feedback[feedbackId := row]);
      jobs := jobs[jobId := job];
      feedback := feedback[feedbackId := row];
      r := Ok(());
    }

    /** The two updates of a re-arming. */
    method RearmRows(ids: seq<JobId>, now: int) returns (rearmed: nat)
      requires Valid()
      modifies this`jobs, this`feedback
      ensures Valid() <==> CoversFailed(old(jobs), ids)
      ensures jobs == Rearmed(old(jobs), ids, now)
      ensures feedback == RearmedFeedback(old(feedback), old(jobs), ids)
      ensures rearmed == |FailedIn(old(jobs), ids)|
      ensures JobsFollow(old(jobs), jobs)
    {
      hide Intact, OutboxOk, Ordered, SnapshotsOk, TracesOk, LabelsOk, LocksOk, CoversFailed, JobsFollow, Listed;
      hide SessionKeys, TransitionKeys, ReferenceKeys, FeedbackKeys, JobKeys;
      RearmFollows(jobs, ids, now);
      RearmKeepsIff(feedback, jobs, ids, now);
      RearmKeepsRows(feedback, jobs, ids, now);
      StatusKeepsLabels(traces, feedback, seen, accepted, RearmedFeedback(feedback, jobs, ids));
      hide Rearmed, RearmedFeedback, SameLabels, FailedIn;
      if |ids| == 0 {
        RearmNothing(feedback, jobs, ids, now);
        return 0;
      }
      rearmed := |FailedIn(jobs, ids)|;
      var before := jobs;
      jobs := Rearmed(jobs, ids, now);
      feedback := RearmedFeedback(feedback, before, ids);
    }

    /**
     * FAILED to PENDING for the listed jobs, with the status of every listed job's
     * feedback. The store stays valid exactly when the list covers the failed job
     * of every feedback it touches.
     */
    method RearmEligibleSyncJobs(ids: seq<JobId>, now: int) returns (rearmed: nat)
      requires Valid()
      modifies this`jobs, this`feedback
      ensures Valid() <==> CoversFailed(old(jobs), ids)
      ensures jobs == Rearmed(old(jobs), ids, now)
      ensures feedback == RearmedFeedback(old(feedback), old(jobs), ids)
      ensures rearmed == |set j | j in old(jobs) && j in ids && old(jobs)[j].state.Failed?|
      ensures jobs.Keys == old(jobs).Keys && forall j | j in jobs ::
        if j in ids && old(jobs)[j].state.Failed? then
          jobs[j].state.Pending? && jobs[j] == old(jobs)[j].(state := jobs[j].state, updatedAt := now)
        else jobs[j] == old(jobs)[j]
      ensures feedback.Keys == old(feedback).Keys && forall f | f in feedback ::
        if old(feedback)[f].syncStatus.Failed? && exists j :: j in ids && j in old(jobs) && old(jobs)[j].feedbackId == f
        then feedback[f] == old(feedback)[f].(syncStatus := SyncStatus.Pending)
        else feedback[f] == old(feedback)[f]
      ensures JobsFollow(old(jobs), jobs)
    {
      RearmIsExact(feedback, jobs, ids, now);
      hide Intact, OutboxOk, Ordered, SnapshotsOk, TracesOk, LabelsOk, LocksOk, CoversFailed, JobsFollow, Listed;
      hide SessionKeys, TransitionKeys, ReferenceKeys, FeedbackKeys, JobKeys, Rearmed, RearmedFeedback;
      rearmed := RearmRows(ids, now);
    }

    /** The oldest FAILED jobs, at most `limit` of them. */
    method ListFailedSyncJobs(limit: nat) returns (rows: seq<JobId>)
      ensures ListsOldest(jobs, InState(jobs, JobState.Failed), rows, limit)
      ensures forall j :: j in rows ==> j in jobs && jobs[j].state.Failed?
      ensures |rows| < limit ==> forall j | j in jobs && jobs[j].state.Failed? :: j in rows
    {
      rows := [];
      var rest := InState(jobs, JobState.Failed);
      while |rows| < limit && rest != {}
        invariant |rows| <= limit
        invariant rest == InState(jobs, JobState.Failed) - (set j | j in rows)
        invariant ListsFirst(jobs, InState(jobs, JobState.Failed), rows)
        decreases |rest|
      {
        OldestExists(jobs, rest);
        var j :| j in rest && OldestUpdated(jobs, rest, j);
        ListsNext(jobs, InState(jobs, JobState.Failed), rows, j);
        assert forall k :: k in rows + [j] <==> k in rows || k == j;
        rows := rows + [j];
        rest := rest - {j};
      }
    }

    /** Crash recovery: every RUNNING job goes back to PENDING. */
    method ResetStaleRunningJobs(now: int) returns (reset: nat)
      requires Valid()
      modifies this`jobs
      ensures Valid()
      ensures jobs == Reset(old(jobs), now)
      ensures reset == |set j | j in old(jobs) && old(jobs)[j].state.Running?|
      ensures jobs.Keys == old(jobs).Keys && forall j | j in jobs ::
        if old(jobs)[j].state.Running? then jobs[j] == old(jobs)[j].(state := JobState.Pending, updatedAt := now)
        else jobs[j] == old(jobs)[j]
      ensures forall j | j in old(jobs) ::
        j in jobs && (Follows(old(jobs)[j].state, jobs[j].state) <==> !old(jobs)[j].state.Running?)
    {
      hide Intact, OutboxOk, Ordered, SnapshotsOk, TracesOk, LabelsOk, LocksOk;
      hide SessionKeys, TransitionKeys, ReferenceKeys, FeedbackKeys;
      ResetKeeps(feedback, jobs, now);
      ResetFollowsIff(jobs, now);
      reset := |InState(jobs, Running)|;
      assert InState(jobs, Running) == set j | j in jobs && jobs[j].state.Running?;
      jobs := Reset(jobs, now);
    }
  }

  predicate HasSuggestion(transitions: seq<Row>, t: TraceId) {
    exists r | r in transitions :: r.payload.traceId == t && (r.payload.to.Displayed? || r.payload.to.Hidden?)
  }

  /** A row by which `t` was put on the screen or taken off it. */
  ghost predicate Shown(row: Row, t: TraceId) {
    row.payload.traceId == t && row.payload.to in {Displayed, Hidden}
  }

  lemma ShownIff(transitions: seq<Row>, t: TraceId)
    ensures HasSuggestion(transitions, t) <==> exists row :: row in transitions && Shown(row, t)
  {
    if HasSuggestion(transitions, t) {
      var row :| row in transitions && row.payload.traceId == t && row.payload.to in {Displayed, Hidden};
      assert Shown(row, t);
    }
  }

  /** The job a stored label asks for. */
  function ActionOf(row: Feedback): Option<Action> {
    RefluxAction(row.labelStatus, row.score, row.correction.Some?, row.source)
  }

  /** The feedback row of an accepted label; the point of an earlier label is kept. */
  function LabelRow(input: LabelRequest, source: Source, target: Option<PointId>): Feedback {
    var corrected := input.correction.Some?;
    var status := LabelOf(input.score, corrected);
    var action := RefluxAction(status, input.score, corrected, source);
    Feedback(input.traceId, input.expectedRevisionNo + 1, input.score, input.correction, status,
             if action.None? then NotRequired else SyncStatus.Pending,
             status.Rejected? && !corrected && source.pointId.Some?, source, target)
  }

  /** What a stored label says, from the request and the source alone. */
  ghost predicate Labelled(row: Feedback, input: LabelRequest, source: Source) {
    && row.traceId == input.traceId && row.revisionNo == input.expectedRevisionNo + 1
    && row.score == input.score && row.correction == input.correction && row.source == source
    && (row.labelStatus.Corrected? <==> input.correction.Some?)
    && (row.labelStatus.Rejected? <==> input.correction.None? && input.score == 0)
    && (row.labelStatus.Accepted? <==> input.correction.None? && input.score > 0)
    && (row.isBadCase <==> input.correction.None? && input.score == 0 && source.pointId.Some?)
  }

  /**
   * The jobs after a label on `f`: its open ones are gone and all others stand. A
   * new one upserts a correction or a score of at least 85, or marks the rejected
   * golden point the suggestion came from; any other label writes none.
   */
  ghost predicate JobWritten(jobs: map<JobId, Job>, jobs': map<JobId, Job>, f: FeedbackId, input: LabelRequest,
                             source: Source, id: JobId, now: int)
  {
    var upsert := input.correction.Some? || input.score >= 85;
    var badCase := input.correction.None? && input.score == 0 && source.golden && source.pointId.Some?;
    && (id in jobs' <==> upsert || badCase)
    && (id in jobs' ==>
          && jobs'[id].feedbackId == f && jobs'[id].state.Pending? && jobs'[id].attempts == 0
          && jobs'[id].createdAt == now && jobs'[id].updatedAt == now
          && jobs'[id].key.feedbackId == f && jobs'[id].key.revisionNo == input.expectedRevisionNo + 1
          && (jobs'[id].key.action.Upsert? <==> upsert))
    && (forall j | j != id ::
          && (j in jobs' <==> j in jobs && (jobs[j].feedbackId != f || jobs[j].state.Succeeded?))
          && (j in jobs' ==> jobs'[j] == jobs[j]))
  }

  lemma LabelIsExact(input: LabelRequest, source: Source, row: Feedback, jobs: map<JobId, Job>, f: FeedbackId,
                     id: JobId, now: int)
    requires row == LabelRow(input, source, row.targetPointId) && id !in jobs
    ensures Labelled(row, input, source)
    ensures JobWritten(jobs, Relabelled(jobs, f, row, ActionOf(row), id, now), f, input, source, id, now)
    ensures row.syncStatus.Pending? <==> id in Relabelled(jobs, f, row, ActionOf(row), id, now)
    ensures row.syncStatus.NotRequired? <==> id !in Relabelled(jobs, f, row, ActionOf(row), id, now)
  {
  }

  /** The bad-case trigger and the unique idempotency key. */
  ghost predicate JobAccepted(row: Feedback, jobs: map<JobId, Job>, job: Job) {
    && (job.key.action.SetBadCase? ==> BadCaseAllowed(row))
    && forall j | j in jobs :: jobs[j].key != job.key
  }

  /** A row whose derived columns follow from the label and its source. */
  ghost predicate RowOk(row: Feedback) {
    && row.labelStatus == LabelOf(row.score, row.correction.Some?)
    && row.isBadCase == (row.labelStatus.Rejected? && row.correction.None? && row.source.pointId.Some?)
    && ActionOf(row) == RefluxAction(row.labelStatus, row.score, row.correction.Some?, row.source)
    && row.syncStatus == if ActionOf(row).None? then NotRequired else SyncStatus.Pending
  }

  lemma RowAsRequired(input: LabelRequest, source: Source, row: Feedback)
    requires row == LabelRow(input, source, row.targetPointId)
    ensures row.traceId == input.traceId && row.revisionNo == input.expectedRevisionNo + 1
    ensures RowOk(row)
  {
  }

  /** What the row of a trace says about its label. */
  lemma LabelOfTrace(traces: map<TraceId, TraceRow>, feedback: map<FeedbackId, Feedback>, t: TraceId)
    requires t in traces && LabelsOk(traces, feedback)
    ensures
      var known := traces[t].currentFeedback;
      && (known.Some? ==> known.value in feedback && Revision(traces, feedback, t) == feedback[known.value].revisionNo)
      && (known.None? ==> Revision(traces, feedback, t) == 0)
  {
  }

  lemma KeyIsNew(jobs: map<JobId, Job>, f: FeedbackId, revisionNo: nat)
    requires forall j | j in jobs :: jobs[j].key.feedbackId != f || jobs[j].key.revisionNo != revisionNo
    ensures forall j | j in WithoutOpen(jobs, f) ::
      WithoutOpen(jobs, f)[j].key.feedbackId != f || WithoutOpen(jobs, f)[j].key.revisionNo != revisionNo
    ensures WithoutOpen(jobs, f).Keys <= jobs.Keys
  {
  }

  lemma LabelKeepsKeys(sessions: map<SessionId, Session>, traces: map<TraceId, TraceRow>, transitions: seq<Row>,
                       references: set<Reference>, snapshots: map<SnapshotId, Snapshot>,
                       feedback: map<FeedbackId, Feedback>, jobs: map<JobId, Job>, t: TraceId, f: FeedbackId,
                       row: Feedback, action: Option<Action>, id: JobId, at: int)
    requires ForeignKeys(sessions, traces, transitions, references, snapshots, feedback, jobs)
    requires t in traces && row.traceId == t
    ensures ForeignKeys(sessions, traces[t := AfterLabel(traces[t], row.labelStatus, f)],
      transitions, references, snapshots,
                        feedback[f := row], Relabelled(jobs, f, row, action, id, at))
    ensures f !in feedback ==> WithoutOpen(jobs, f) == jobs
  {
    if f !in feedback {
      assert WithoutOpen(jobs, f) == jobs;
    }
  }

  /** The label a claimed job stands for is the one that asked for it. */
  lemma OpenJobIsJustified(feedback: map<FeedbackId, Feedback>, jobs: map<JobId, Job>, j: JobId)
    requires OutboxOk(feedback, jobs) && j in jobs && Open(jobs[j])
    ensures jobs[j].feedbackId in feedback && Justified(feedback[jobs[j].feedbackId], jobs[j].key.action)
    ensures feedback[jobs[j].feedbackId].syncStatus == StatusFor(jobs[j].state)
  {
    assert JobOk(feedback, jobs[j]);
  }

  lemma RearmKeepsRows(feedback: map<FeedbackId, Feedback>, jobs: map<JobId, Job>, ids: seq<JobId>, now: int)
    ensures Rearmed(jobs, ids, now).Keys == jobs.Keys
    ensures SameLabels(feedback, RearmedFeedback(feedback, jobs, ids))
    ensures JobKeys(feedback, jobs) ==> JobKeys(RearmedFeedback(feedback, jobs, ids), Rearmed(jobs, ids, now))
    ensures RearmedFeedback(feedback, jobs, ids).Keys == feedback.Keys
  {
  }

  lemma RearmNothing(feedback: map<FeedbackId, Feedback>, jobs: map<JobId, Job>, ids: seq<JobId>, now: int)
    requires ids == []
    ensures Rearmed(jobs, ids, now) == jobs && RearmedFeedback(feedback, jobs, ids) == feedback
    ensures FailedIn(jobs, ids) == {}
  {
  }

  lemma SameTraces(sessions: map<SessionId, Session>, traces: map<TraceId, TraceRow>,
                   feedback: map<FeedbackId, Feedback>, t: TraceId, row: TraceRow)
    requires t in traces && SessionKeys(sessions, traces) && FeedbackKeys(traces, feedback)
    requires row.sessionId == traces[t].sessionId
    ensures SessionKeys(sessions, traces[t := row]) && FeedbackKeys(traces[t := row], feedback)
    ensures forall transitions :: TransitionKeys(traces[t := row], transitions) <==> TransitionKeys(traces, transitions)
  {
  }

  /** What the pruned tables keep beside their keys. */
  lemma PruneKeepsTables(traces: map<TraceId, TraceRow>, transitions: seq<Row>, references: set<Reference>,
                         snapshots: map<SnapshotId, Snapshot>, feedback: map<FeedbackId, Feedback>,
                         jobs: map<JobId, Job>, seen: set<TraceId>, accepted: set<(TraceId, nat)>, gone: set<TraceId>,
                         hmac: Hmac)
    requires Ordered(transitions) && Intact(transitions, hmac) && TracesOk(traces, transitions)
    requires SnapshotsOk(references, snapshots) && LabelsOk(traces, feedback) && OutboxOk(feedback, jobs)
    requires LocksOk(traces, feedback, seen, accepted)
    ensures Ordered(Pruned(transitions, gone)) && Intact(Pruned(transitions, gone), hmac)
    ensures TracesOk(TracesWithout(traces, gone), Pruned(transitions, gone))
    ensures
      var refs := ReferencesWithout(references, gone);
      SnapshotsOk(refs, SnapshotsOf(refs, snapshots))
    ensures LabelsOk(TracesWithout(traces, gone), FeedbackWithout(feedback, gone))
    ensures LocksOk(TracesWithout(traces, gone), FeedbackWithout(feedback, gone), seen, accepted)
    ensures OutboxOk(FeedbackWithout(feedback, gone), JobsWithout(feedback, jobs, gone))
    ensures JobsFollow(jobs, JobsWithout(feedback, jobs, gone))
  {
    hide Intact, OutboxOk, Ordered, SnapshotsOk, TracesOk, LabelsOk, LocksOk;
    PruneKeepsIntact(transitions, gone, hmac);
    PruneKeepsTraces(traces, transitions, gone);
    PruneKeepsSnapshots(references, snapshots, gone);
    PruneKeepsLabels(traces, feedback, gone);
    PruneKeepsLocks(traces, feedback, seen, accepted, gone);
    PruneKeeps(feedback, jobs, gone);
  }

  /** The ids of the snapshots are all new, and each is used once. */
  ghost predicate Storable(snaps: seq<SnapshotInput>, snapshots: map<SnapshotId, Snapshot>) {
    DistinctSnaps(snaps) && forall s | s in snaps :: s.id !in snapshots
  }

  ghost predicate AllStored(references: set<Reference>, snapshots: map<SnapshotId, Snapshot>) {
    forall q | q in references :: q.snapshotId in snapshots
  }

  /** Both tables hold what they held and the new snapshots, whose ids are all new. */
  ghost predicate SnapsStored(references: set<Reference>, snapshots: map<SnapshotId, Snapshot>,
                              references': set<Reference>, snapshots': map<SnapshotId, Snapshot>, t: TraceId,
                              seqNo: nat, now: int, snaps: seq<SnapshotInput>)
  {
    && references' == references + References(t, seqNo, snaps)
    && snapshots'.Keys == snapshots.Keys + (set s | s in snaps :: s.id)
    && (forall s | s in snapshots :: s in snapshots' && snapshots'[s] == snapshots[s])
    && (forall s | s in snaps :: s.id in snapshots' && snapshots'[s.id] == Snapshot(s.content, now))
    && (forall s | s in snaps :: s.id !in snapshots)
    && DistinctSnaps(snaps)
  }

  lemma NothingStored(references: set<Reference>, snapshots: map<SnapshotId, Snapshot>, t: TraceId, seqNo: nat,
                      now: int)
    ensures SnapsStored(references, snapshots, references, snapshots, t, seqNo, now, [])
  {
  }

  lemma OneMoreStored(references: set<Reference>, snapshots: map<SnapshotId, Snapshot>, references': set<Reference>,
                      snapshots': map<SnapshotId, Snapshot>, t: TraceId, seqNo: nat, now: int,
                      snaps: seq<SnapshotInput>, snap: SnapshotInput)
    requires SnapsStored(references, snapshots, references', snapshots', t, seqNo, now, snaps)
    requires snap.id !in snapshots'
    ensures SnapsStored(references, snapshots, references' + {Reference(t, seqNo, snap.id, snap.role)},
                        snapshots'[snap.id := Snapshot(snap.content, now)], t, seqNo, now, snaps + [snap])
  {
    ReferencesSnoc(t, seqNo, snaps, snap);
    hide References;
    DistinctSnoc(snapshots', snaps, snap);
    hide DistinctSnaps;
    assert forall s :: s in snaps + [snap] <==> s in snaps || s == snap;
  }

  lemma DistinctSnoc(taken: map<SnapshotId, Snapshot>, snaps: seq<SnapshotInput>, snap: SnapshotInput)
    requires DistinctSnaps(snaps) && snap.id !in taken && forall s | s in snaps :: s.id in taken
    ensures DistinctSnaps(snaps + [snap])
  {
    assert forall j | 0 <= j < |snaps| :: snaps[j] in snaps && snaps[j].id in taken;
  }

  lemma StoredAreNew(references: set<Reference>, snapshots: map<SnapshotId, Snapshot>, references': set<Reference>,
                     snapshots': map<SnapshotId, Snapshot>, t: TraceId, seqNo: nat, now: int,
                     snaps: seq<SnapshotInput>)
    requires SnapsStored(references, snapshots, references', snapshots', t, seqNo, now, snaps)
    ensures Storable(snaps, snapshots)
  {
  }

  lemma TakenId(references: set<Reference>, snapshots: map<SnapshotId, Snapshot>, references': set<Reference>,
                snapshots': map<SnapshotId, Snapshot>, t: TraceId, seqNo: nat, now: int, snaps: seq<SnapshotInput>,
                i: nat)
    requires i < |snaps|
    requires SnapsStored(references, snapshots, references', snapshots', t, seqNo, now, snaps[..i])
    requires snaps[i].id in snapshots'
    ensures !Storable(snaps, snapshots)
  {
    if snaps[i].id !in snapshots {
      assert snaps[i].id in snapshots'.Keys;
      var s :| s in snaps[..i] && s.id == snaps[i].id;
      var k :| 0 <= k < i && snaps[k] == s;
    } else {
      assert snaps[i] in snaps;
    }
  }

  lemma StoredKeys(references: set<Reference>, snapshots: map<SnapshotId, Snapshot>, references': set<Reference>,
                   snapshots': map<SnapshotId, Snapshot>, t: TraceId, seqNo: nat, now: int, snaps: seq<SnapshotInput>)
    requires SnapsStored(references, snapshots, references', snapshots', t, seqNo, now, snaps)
    ensures references' == references + References(t, seqNo, snaps)
    ensures snapshots.Keys <= snapshots'.Keys && forall s | s in snaps :: s.id in snapshots'
    ensures forall s | s in snaps ::
      && Reference(t, seqNo, s.id, s.role) in references'
      && s.id in snapshots' && snapshots'[s.id] == Snapshot(s.content, now)
  {
  }

  /** One more row for `t`, last of its chain and with all its fields; the other chains stand. */
  ghost predicate Appended(rows: seq<Row>, rows': seq<Row>, t: TraceId, from: Option<TraceState>, to: TraceState,
                           reason: Reason, at: int, hmac: Hmac)
  {
    && |Of(rows', t)| == |Of(rows, t)| + 1 && Of(rows, t) <= Of(rows', t)
    && (forall u | u != t :: Of(rows', u) == Of(rows, u))
    && var n := |Of(rows, t)|;
       var row := Of(rows', t)[n];
       && row.payload.traceId == t && row.payload.seqNo == n + 1 && row.payload.at == at
       && row.payload.from == from && row.payload.to == to && row.payload.reason == reason
       && row.payload.prev == (if n == 0 then None else Some(Of(rows, t)[n - 1].mac))
       && row.mac == hmac(row.payload)
  }

  lemma NextIsAppended(rows: seq<Row>, t: TraceId, from: Option<TraceState>, to: TraceState, reason: Reason, at: int,
                       hmac: Hmac)
    requires Ordered(rows)
    ensures
      var row := NextRow(Of(rows, t), t, from, to, reason, at, hmac);
      Appended(rows, Inserted(rows, row), t, from, to, reason, at, hmac)
  {
    var row := NextRow(Of(rows, t), t, from, to, reason, at, hmac);
    hide Of, Inserted;
    forall u
      ensures Of(Inserted(rows, row), u) == Of(rows, u) + if u == t then [row] else []
    {
      InsertedOf(rows, row, u);
    }
    assert Of(rows, t) + [row] == Of(Inserted(rows, row), t);
  }
}
