/**
 * The outbox consumer. A sweep is cut at its two awaits (the collection's profile
 * and each Qdrant write); between any two of its segments labels, prunes and
 * worker restarts may run.
 */
module GoldenSync {
  import opened Wrappers
  import opened Trace
  import opened HmacChain
  import opened Outbox
  import opened AuditTables
  import opened AuditStorage

  function Pow2(n: nat): (p: nat)
    ensures p >= 1
  {
    if n == 0 then 1 else 2 * Pow2(n - 1)
  }

  /** Delay before a job that failed `attempts` times is tried again. */
  function BackoffMs(attempts: nat, retryBaseMs: nat, retryMaxMs: nat): nat {
    var delay := retryBaseMs * Pow2(if attempts == 0 then 0 else attempts - 1);
    if delay <= retryMaxMs then delay else retryMaxMs
  }

  /** Backoff never shrinks as attempts grow, starts at the base and stays under the cap. */
  lemma {:induction false} BackoffGrows(a: nat, b: nat, retryBaseMs: nat, retryMaxMs: nat)
    requires a <= b
    ensures BackoffMs(a, retryBaseMs, retryMaxMs) <= BackoffMs(b, retryBaseMs, retryMaxMs) <= retryMaxMs
    ensures BackoffMs(1, retryBaseMs, retryMaxMs) == if retryBaseMs <= retryMaxMs then retryBaseMs else retryMaxMs
    decreases b
  {
    if a < b {
      BackoffGrows(a, b - 1, retryBaseMs, retryMaxMs);
      if b > 1 {
        assert retryBaseMs * Pow2(b - 1) == 2 * (retryBaseMs * Pow2(b - 2));
      }
    }
    assert Pow2(0) == 1;
  }

  /** The first two delays are the base, every further one is twice the last; all are cut at the cap. */
  lemma BackoffDoubles(attempts: nat, retryBaseMs: nat, retryMaxMs: nat)
    ensures BackoffMs(0, retryBaseMs, retryMaxMs) == if retryBaseMs <= retryMaxMs then retryBaseMs else retryMaxMs
    ensures BackoffMs(1, retryBaseMs, retryMaxMs) == BackoffMs(0, retryBaseMs, retryMaxMs)
    ensures attempts >= 1 ==>
      var delay := 2 * BackoffMs(attempts, retryBaseMs, retryMaxMs);
      BackoffMs(attempts + 1, retryBaseMs, retryMaxMs) == if delay <= retryMaxMs then delay else retryMaxMs
  {
    assert Pow2(0) == 1;
    if attempts >= 1 {
      assert retryBaseMs * Pow2(attempts) == 2 * (retryBaseMs * Pow2(attempts - 1));
    }
  }

  function Count(failures: map<JobId, nat>, j: JobId): nat {
    if j in failures then failures[j] else 0
  }

  /**
   * What every interleaving keeps: a RUNNING job is the one the sweep holds, a job
   * that can still run has attempts left, attempts bound the failures of a job,
   * and a permanent failure stays FAILED beyond any attempt limit.
   */
  ghost predicate SweepOk(jobs: map<JobId, Job>, nextJobId: JobId, held: Option<JobId>, maxAttempts: nat,
                          failures: map<JobId, nat>, dead: set<JobId>)
  {
    && (forall j | j in jobs :: JobSafe(jobs[j], j, held, maxAttempts, Count(failures, j), j in dead))
    && (forall j | j in failures :: j < nextJobId && failures[j] <= maxAttempts)
    && (forall j | j in dead :: j < nextJobId)
  }

  ghost predicate JobSafe(job: Job, j: JobId, held: Option<JobId>, maxAttempts: nat, failed: nat, dead: bool) {
    && (job.state.Running? ==> held == Some(j))
    && (job.state.Pending? || job.state.Running? ==> job.attempts < maxAttempts)
    && failed <= job.attempts
    && (dead ==> job.state.Failed? && job.attempts == MAX_SAFE_INTEGER)
  }

  lemma LabelKeepsSweep(jobs: map<JobId, Job>, nextJobId: JobId, held: Option<JobId>, maxAttempts: nat,
                        failures: map<JobId, nat>, dead: set<JobId>, f: FeedbackId, row: Feedback,
                        action: Option<Action>, at: int)
    requires SweepOk(jobs, nextJobId, held, maxAttempts, failures, dead) && maxAttempts >= 1
    ensures SweepOk(Relabelled(jobs, f, row, action, nextJobId, at), nextJobId + 1, held, maxAttempts, failures, dead)
    ensures forall j | j in Relabelled(jobs, f, row, action, nextJobId, at) && j != nextJobId ::
      j in jobs && Relabelled(jobs, f, row, action, nextJobId, at)[j] == jobs[j]
  {
    hide JobSafe;
    var jobs' := Relabelled(jobs, f, row, action, nextJobId, at);
    forall j | j in jobs'
      ensures JobSafe(jobs'[j], j, held, maxAttempts, Count(failures, j), j in dead)
    {
      if j == nextJobId && action.Some? {
        assert Count(failures, j) == 0 && j !in dead;
        FreshJobSafe(f, row, action.value, at, j, held, maxAttempts);
      } else {
        assert j in jobs && jobs'[j] == jobs[j];
      }
    }
  }

  lemma FreshJobSafe(f: FeedbackId, row: Feedback, action: Action, at: int, j: JobId, held: Option<JobId>,
                     maxAttempts: nat)
    requires maxAttempts >= 1
    ensures JobSafe(JobFor(f, row.revisionNo, action, at), j, held, maxAttempts, 0, false)
  {
  }

  /** A set of jobs of which some stay as they are and the others are gone. */
  lemma FewerKeepsSweep(jobs: map<JobId, Job>, jobs': map<JobId, Job>, nextJobId: JobId, held: Option<JobId>,
                        maxAttempts: nat, failures: map<JobId, nat>, dead: set<JobId>)
    requires SweepOk(jobs, nextJobId, held, maxAttempts, failures, dead)
    requires forall j | j in jobs' :: j in jobs && jobs'[j] == jobs[j]
    ensures SweepOk(jobs', nextJobId, held, maxAttempts, failures, dead)
  {
  }

  lemma ResetKeepsSweep(jobs: map<JobId, Job>, nextJobId: JobId, held: Option<JobId>, maxAttempts: nat,
                        failures: map<JobId, nat>, dead: set<JobId>, now: int)
    requires SweepOk(jobs, nextJobId, held, maxAttempts, failures, dead)
    ensures SweepOk(Reset(jobs, now), nextJobId, held, maxAttempts, failures, dead)
  {
    forall j | j in jobs
      ensures JobSafe(Reset(jobs, now)[j], j, held, maxAttempts, Count(failures, j), j in dead)
    {
      assert JobSafe(jobs[j], j, held, maxAttempts, Count(failures, j), j in dead);
    }
  }

  /** After a reset no job is RUNNING, so none needs to be held. */
  lemma ResetFrees(jobs: map<JobId, Job>, nextJobId: JobId, held: Option<JobId>, maxAttempts: nat,
                   failures: map<JobId, nat>, dead: set<JobId>, now: int)
    requires SweepOk(jobs, nextJobId, held, maxAttempts, failures, dead)
    ensures SweepOk(Reset(jobs, now), nextJobId, None, maxAttempts, failures, dead)
  {
    forall j | j in jobs
      ensures JobSafe(Reset(jobs, now)[j], j, None, maxAttempts, Count(failures, j), j in dead)
    {
      assert JobSafe(jobs[j], j, held, maxAttempts, Count(failures, j), j in dead);
    }
  }

  /** No job disappears, and only PENDING jobs change: they are claimed, and may fail at once. */
  ghost predicate SettledStay(jobs: map<JobId, Job>, jobs': map<JobId, Job>) {
    forall j | j in jobs :: j in jobs' &&
      (jobs'[j] == jobs[j] || (jobs[j].state.Pending? && (jobs'[j].state.Running? || jobs'[j].state.Failed?)))
  }

  /** No failure on record is forgotten. */
  ghost predicate FailuresGrow(before: map<JobId, nat>, after: map<JobId, nat>) {
    forall j | j in before :: j in after && before[j] <= after[j]
  }

  /** A failed job that may be tried again at `now`. */
  predicate Eligible(job: Job, now: int, maxAttempts: nat, retryBaseMs: nat, retryMaxMs: nat) {
    job.attempts < maxAttempts && now >= job.updatedAt + BackoffMs(job.attempts, retryBaseMs, retryMaxMs)
  }

  /** What one sweep's re-arming does to a job, given whether it is among those listed. */
  function AfterRearm(job: Job, listed: bool, now: int, maxAttempts: nat, retryBaseMs: nat, retryMaxMs: nat): Job {
    if listed && Eligible(job, now, maxAttempts, retryBaseMs, retryMaxMs)
    then job.(state := JobState.Pending, updatedAt := now) else job
  }

  lemma RearmedWhen(jobs: map<JobId, Job>, rows: seq<JobId>, now: int, maxAttempts: nat, retryBaseMs: nat,
                    retryMaxMs: nat)
    ensures forall j | j in jobs ::
      var job, after := jobs[j], AfterRearm(jobs[j], j in rows, now, maxAttempts, retryBaseMs, retryMaxMs);
      if j in rows && job.attempts < maxAttempts
         && now >= job.updatedAt + BackoffMs(job.attempts, retryBaseMs, retryMaxMs)
      then after == job.(state := JobState.Pending, updatedAt := now) else after == job
  {
  }

  lemma RearmKeepsSweep(jobs: map<JobId, Job>, nextJobId: JobId, held: Option<JobId>, maxAttempts: nat,
                        failures: map<JobId, nat>, dead: set<JobId>, ids: seq<JobId>, now: int)
    requires SweepOk(jobs, nextJobId, held, maxAttempts, failures, dead) && maxAttempts <= MAX_SAFE_INTEGER
    requires forall j | j in ids :: j in jobs && jobs[j].attempts < maxAttempts
    ensures SweepOk(Rearmed(jobs, ids, now), nextJobId, held, maxAttempts, failures, dead)
  {
    forall j | j in jobs
      ensures JobSafe(Rearmed(jobs, ids, now)[j], j, held, maxAttempts, Count(failures, j), j in dead)
    {
      assert JobSafe(jobs[j], j, held, maxAttempts, Count(failures, j), j in dead);
    }
  }

  /** Re-arming failed jobs only: no other job of their feedback has failed. */
  lemma FailedListCovers(feedback: map<FeedbackId, Feedback>, jobs: map<JobId, Job>, ids: seq<JobId>)
    requires OutboxOk(feedback, jobs)
    requires forall j | j in ids :: j in jobs && jobs[j].state.Failed?
    ensures CoversFailed(jobs, ids)
  {
    OutboxConsequences(feedback, jobs);
  }

  /** The held job is claimed, or let go of in a new state. */
  lemma MoveKeepsSweep(jobs: map<JobId, Job>, nextJobId: JobId, held: Option<JobId>, held': Option<JobId>,
                       maxAttempts: nat, failures: map<JobId, nat>, dead: set<JobId>, j: JobId, job: Job)
    requires SweepOk(jobs, nextJobId, held, maxAttempts, failures, dead)
    requires j in jobs && !jobs[j].state.Failed? && job.attempts == jobs[j].attempts
    requires (held == None && held' == Some(j) && jobs[j].state.Pending? && job.state.Running?)
          || (held == Some(j) && held' == None && job.state.Succeeded?)
    ensures SweepOk(jobs[j := job], nextJobId, held', maxAttempts, failures, dead)
    ensures j !in dead
  {
    forall i | i in jobs[j := job]
      ensures JobSafe(jobs[j := job][i], i, held', maxAttempts, Count(failures, i), i in dead)
    {
      assert JobSafe(jobs[i], i, held, maxAttempts, Count(failures, i), i in dead);
    }
    assert JobSafe(jobs[j], j, held, maxAttempts, Count(failures, j), j in dead);
  }

  /** Letting go of a job that is not RUNNING any more. */
  lemma ReleaseKeepsSweep(jobs: map<JobId, Job>, nextJobId: JobId, j: JobId, maxAttempts: nat,
                          failures: map<JobId, nat>, dead: set<JobId>)
    requires SweepOk(jobs, nextJobId, Some(j), maxAttempts, failures, dead)
    requires j in jobs ==> !jobs[j].state.Running?
    ensures SweepOk(jobs, nextJobId, None, maxAttempts, failures, dead)
  {
    forall i | i in jobs
      ensures JobSafe(jobs[i], i, None, maxAttempts, Count(failures, i), i in dead)
    {
      assert JobSafe(jobs[i], i, Some(j), maxAttempts, Count(failures, i), i in dead);
    }
  }

  lemma FailKeepsSweep(jobs: map<JobId, Job>, nextJobId: JobId, j: JobId, maxAttempts: nat,
                       failures: map<JobId, nat>, dead: set<JobId>, permanent: bool, job: Job)
    requires SweepOk(jobs, nextJobId, Some(j), maxAttempts, failures, dead) && maxAttempts <= MAX_SAFE_INTEGER
    requires j in jobs && jobs[j].state.Running? && j < nextJobId && job.state.Failed?
    requires job.attempts == if permanent then MAX_SAFE_INTEGER else jobs[j].attempts + 1
    ensures SweepOk(jobs[j := job], nextJobId, None, maxAttempts, failures[j := Count(failures, j) + 1],
                    if permanent then dead + {j} else dead)
  {
    var failures', dead' := failures[j := Count(failures, j) + 1], if permanent then dead + {j} else dead;
    assert JobSafe(jobs[j], j, Some(j), maxAttempts, Count(failures, j), j in dead);
    forall i | i in jobs[j := job]
      ensures JobSafe(jobs[j := job][i], i, None, maxAttempts, Count(failures', i), i in dead')
    {
      assert JobSafe(jobs[i], i, Some(j), maxAttempts, Count(failures, i), i in dead);
    }
  }

  /**
   * An eligible job need not ever be re-armed: with a batch of one, an older
   * permanent failure takes the only place in the list, at every time.
   */
  lemma EligibleJobMayStarve(jobs: map<JobId, Job>, rows: seq<JobId>, now: int)
    requires jobs == map[
      0 := Job(0, Key(0, 1, Upsert), JobState.Failed, MAX_SAFE_INTEGER, 0, 0),
      1 := Job(1, Key(1, 1, Upsert), JobState.Failed, 1, 0, 1)]
    requires ListsOldest(jobs, InState(jobs, JobState.Failed), rows, 1)
    ensures now >= 5001 ==> Eligible(jobs[1], now, 8, 5000, 300000)
    ensures 1 !in rows && (0 in rows ==> !Eligible(jobs[0], now, 8, 5000, 300000))
  {
    assert Pow2(0) == 1;
    assert 0 in Earlier(jobs, InState(jobs, JobState.Failed), 1);
    SubsetSize({0}, Earlier(jobs, InState(jobs, JobState.Failed), 1));
    ListedIffFewEarlier(jobs, InState(jobs, JobState.Failed), rows, 1, 1);
  }

  /** Traces and their rows are all still there. */
  ghost predicate NothingLost(rows: seq<Row>, rows': seq<Row>, traces: map<TraceId, TraceRow>,
                              traces': map<TraceId, TraceRow>)
  {
    RowsGrow(rows, rows') && traces.Keys <= traces'.Keys
  }

  datatype ProfileOutcome = Unreachable | BadProfile | GoodProfile

  /** Where a sweep waits. */
  datatype Phase =
    | Idle
    | AwaitingProfile
    | AwaitingQdrant(job: PendingSyncJob, target: PointId, round: nat, profile: bool)

  datatype SweepResult = SweepResult(rearmed: nat, claimed: nat, succeeded: nat, failed: nat)

  /** What building the point of an upsert job gives: its id, or a permanent payload error. */
  type Builder = FeedbackId -> Option<PointId>

  /** Everything that can happen to the store between two segments of a sweep, and the segments themselves. */
  datatype Event =
    | NewSession(id: SessionId)
    | NewTrace(t: TraceId, id: SessionId, message: string)
    | Transition(t: TraceId, from: Option<TraceState>, to: TraceState, reason: Reason, now: int,
                 snaps: seq<SnapshotInput>)
    | Labelled(input: LabelRequest, persona: bool, source: Source, now: int)
    | PruneDue(cutoff: int)
    | Restarted(now: int)
    | Crashed(now: int)
    | SweepDue(now: int)
    | ProfileRead(outcome: ProfileOutcome, build: Builder, now: int)
    | QdrantWrote(written: bool, build: Builder, now: int)

  class GoldenSyncWorker {
    const audit: AuditStore
    const maxAttempts: nat
    const batchSize: nat
    const retryBaseMs: nat
    const retryMaxMs: nat
    var inFlight: bool
    var phase: Phase
    var result: SweepResult
    /** How often each job has failed, and which failed permanently. */
    ghost var failures: map<JobId, nat>
    ghost var dead: set<JobId>

    /**
     * The worker of a new process. The table may hold jobs of earlier processes,
     * one of them, `running`, still RUNNING; `failures` and `dead` are their record.
     */
    constructor (audit: AuditStore, maxAttempts: nat, batchSize: nat, retryBaseMs: nat, retryMaxMs: nat,
                 ghost running: Option<JobId>, ghost failures: map<JobId, nat>, ghost dead: set<JobId>)
      requires audit.Valid() && 1 <= maxAttempts <= MAX_SAFE_INTEGER
      requires SweepOk(audit.jobs, audit.nextJobId, running, maxAttempts, failures, dead)
      ensures Safe(running) && phase.Idle? && !inFlight && this.audit == audit
      ensures this.failures == failures && this.dead == dead
    {
      this.audit, this.maxAttempts, this.batchSize := audit, maxAttempts, batchSize;
      this.retryBaseMs, this.retryMaxMs := retryBaseMs, retryMaxMs;
      inFlight, phase, result := false, Idle, SweepResult(0, 0, 0, 0);
      this.failures, this.dead := failures, dead;
    }

    ghost function Held(): Option<JobId>
      reads this
    {
      if phase.AwaitingQdrant? then Some(phase.job.jobId) else None
    }

    /** The sweep's part of the invariant, with `held` the job claimed and not yet let go. */
    ghost predicate Safe(held: Option<JobId>)
      reads this, audit
    {
      && audit.Valid()
      && 1 <= maxAttempts <= MAX_SAFE_INTEGER
      && SweepOk(audit.jobs, audit.nextJobId, held, maxAttempts, failures, dead)
    }

    ghost predicate Inv()
      reads this, audit
    {
      && Safe(Held())
      && inFlight == !phase.Idle?
      && (phase.AwaitingQdrant? ==> Claimed(phase.job))
    }

    /** The job's row, while it exists, is the one that was claimed. */
    ghost predicate Claimed(job: PendingSyncJob)
      reads audit
    {
      && job.jobId < audit.nextJobId
      && (job.jobId in audit.jobs ==> audit.jobs[job.jobId].feedbackId == job.feedbackId)
    }

    /** Process start: jobs left RUNNING go back to PENDING, even under a sweep of this worker. */
    method Start(now: int)
      requires Inv()
      modifies audit`jobs
      ensures Inv()
      ensures audit.jobs == Reset(old(audit.jobs), now)
    {
      hide OutboxOk, ForeignKeys, SweepOk, JobSafe;
      ResetKeepsSweep(audit.jobs, audit.nextJobId, Held(), maxAttempts, failures, dead, now);
      var n := audit.ResetStaleRunningJobs(now);
    }

    /** The first start of a process: the job its predecessor left RUNNING goes back to PENDING. */
    method FirstStart(ghost running: Option<JobId>, now: int)
      requires Safe(running) && phase.Idle? && !inFlight
      modifies audit`jobs
      ensures Inv()
      ensures audit.jobs == Reset(old(audit.jobs), now)
    {
      hide OutboxOk, ForeignKeys, SweepOk, JobSafe;
      ResetFrees(audit.jobs, audit.nextJobId, running, maxAttempts, failures, dead, now);
      var n := audit.ResetStaleRunningJobs(now);
    }

    /** The process dies, its suspended sweep with it, and the next one starts on what the tables hold. */
    method Crash(now: int)
      requires Inv()
      modifies this`inFlight, this`phase, this`result, audit`jobs
      ensures Inv() && phase.Idle? && !inFlight
      ensures audit.jobs == Reset(old(audit.jobs), now)
    {
      hide OutboxOk, ForeignKeys, SweepOk, JobSafe;
      ghost var running := Held();
      inFlight, phase, result := false, Idle, SweepResult(0, 0, 0, 0);
      FirstStart(running, now);
    }

    /** The listing, the filter and the statement. */
    method RearmListed(limit: nat, now: int) returns (rearmed: nat, ghost rows: seq<JobId>)
      requires Safe(None)
      modifies audit`jobs, audit`feedback
      ensures Safe(None)
      ensures ListsOldest(old(audit.jobs), InState(old(audit.jobs), JobState.Failed), rows, limit)
      ensures audit.jobs.Keys == old(audit.jobs).Keys
      ensures forall j | j in old(audit.jobs) ::
        audit.jobs[j] == AfterRearm(old(audit.jobs)[j], j in rows, now, maxAttempts, retryBaseMs, retryMaxMs)
    {
      hide OutboxOk, ForeignKeys, SweepOk, JobSafe, Eligible, CoversFailed, BackoffMs;
      var failed := audit.ListFailedSyncJobs(limit);
      rows := failed;
      var eligible := [];
      for i := 0 to |failed|
        invariant forall j :: j in eligible <==>
          j in failed[..i] && j in audit.jobs && Eligible(audit.jobs[j], now, maxAttempts, retryBaseMs, retryMaxMs)
      {
        assert failed[..i + 1] == failed[..i] + [failed[i]];
        if Eligible(audit.jobs[failed[i]], now, maxAttempts, retryBaseMs, retryMaxMs) {
          eligible := eligible + [failed[i]];
        }
      }
      assert failed[..|failed|] == failed;
      if |eligible| == 0 {
        return 0, rows;
      }
      ghost var before := audit.jobs;
      EligibleMayRun(audit.jobs, eligible, now, maxAttempts, retryBaseMs, retryMaxMs);
      FailedListCovers(audit.feedback, audit.jobs, eligible);
      RearmKeepsSweep(audit.jobs, audit.nextJobId, None, maxAttempts, failures, dead, eligible, now);
      rearmed := audit.RearmEligibleSyncJobs(eligible, now);
    }

    /**
     * Re-arms, among the oldest failed jobs, those with attempts left whose backoff
     * has elapsed.
     */
    method RearmEligible(limit: nat, now: int) returns (rearmed: nat, ghost rows: seq<JobId>)
      requires Safe(None)
      modifies audit`jobs, audit`feedback
      ensures Safe(None)
      ensures ListsOldest(old(audit.jobs), InState(old(audit.jobs), JobState.Failed), rows, limit)
      ensures audit.jobs.Keys == old(audit.jobs).Keys
      ensures forall j | j in old(audit.jobs) ::
        audit.jobs[j] == AfterRearm(old(audit.jobs)[j], j in rows, now, maxAttempts, retryBaseMs, retryMaxMs)
      ensures forall j | j in old(audit.jobs) ::
        var job := old(audit.jobs)[j];
        if j in rows && job.attempts < maxAttempts
           && now >= job.updatedAt + BackoffMs(job.attempts, retryBaseMs, retryMaxMs)
        then audit.jobs[j] == job.(state := JobState.Pending, updatedAt := now) else audit.jobs[j] == job
    {
      hide OutboxOk, ForeignKeys, SweepOk, JobSafe, AfterRearm, BackoffMs, ListsOldest;
      rearmed, rows := RearmListed(limit, now);
      RearmedWhen(old(audit.jobs), rows, now, maxAttempts, retryBaseMs, retryMaxMs);
    }

    /** Starts a sweep unless one is under way; runs to the await of the collection's profile. */
    method BeginSweep(now: int)
      requires Inv()
      modifies this`inFlight, this`phase, this`result, audit`jobs, audit`feedback
      ensures Inv()
      ensures old(inFlight) ==> audit.jobs == old(audit.jobs) && phase == old(phase)
      ensures !old(inFlight) ==> phase.AwaitingProfile?
      ensures SegmentFollows(old(audit.jobs), audit.jobs)
    {
      hide OutboxOk, ForeignKeys, SweepOk, JobSafe;
      if inFlight {
        return;
      }
      inFlight := true;
      phase := AwaitingProfile;
      var rearmed, rows := RearmEligible(batchSize, now);
      result := SweepResult(rearmed, 0, 0, 0);
    }

    method EndSweep()
      requires Safe(None)
      modifies this`inFlight, this`phase
      ensures Inv() && phase.Idle?
    {
      inFlight, phase := false, Idle;
    }

    /**
     * A parked job's write goes to the point it must: that of the golden source
     * for a bad case, and for an upsert, which needs the profile, the point built.
     */
    ghost predicate Aimed(build: Builder)
      reads this, audit
    {
      phase.AwaitingQdrant? ==>
        && phase.job.feedbackId in audit.feedback
        && (phase.job.action.SetBadCase? ==> audit.feedback[phase.job.feedbackId].source.pointId == Some(phase.target))
        && (phase.job.action.Upsert? ==> phase.profile && build(phase.job.feedbackId) == Some(phase.target))
    }

    /** The profile arrived, is unusable, or Qdrant is down: then no attempt is spent. */
    method ResumeProfile(outcome: ProfileOutcome, build: Builder, now: int)
      requires Inv() && phase.AwaitingProfile?
      modifies this, audit`jobs, audit`feedback
      ensures Inv() && old(dead) <= dead && FailuresGrow(old(failures), failures)
      ensures outcome.Unreachable? ==> audit.jobs == old(audit.jobs) && phase.Idle?
      ensures Aimed(build) && (phase.AwaitingQdrant? ==> phase.profile == outcome.GoodProfile?)
      ensures SegmentFollows(old(audit.jobs), audit.jobs)
    {
      hide OutboxOk, ForeignKeys, SweepOk, JobSafe;
      if outcome.Unreachable? {
        EndSweep();
        return;
      }
      NextJobs(0, outcome.GoodProfile?, build, now);
    }

    /** Records a failed job that is still RUNNING; refused, changing nothing, when it was superseded. */
    method Fail(job: PendingSyncJob, permanent: bool, now: int) returns (r: Result<(), StoreError>)
      requires Safe(Some(job.jobId)) && Claimed(job)
      modifies this`failures, this`dead, audit`jobs, audit`feedback
      ensures Safe(None)
      ensures r.Ok? <==> job.jobId in old(audit.jobs) && old(audit.jobs)[job.jobId].state.Running?
      ensures dead == if r.Ok? && permanent then old(dead) + {job.jobId} else old(dead)
      ensures failures ==
        if r.Ok? then old(failures)[job.jobId := Count(old(failures), job.jobId) + 1] else old(failures)
      ensures r.Ok? ==>
        && audit.jobs.Keys == old(audit.jobs).Keys && audit.jobs[job.jobId].state.Failed?
        && audit.jobs[job.jobId].attempts ==
             (if permanent then MAX_SAFE_INTEGER else old(audit.jobs)[job.jobId].attempts + 1)
      ensures forall j | j in old(audit.jobs) && j != job.jobId ::
        j in audit.jobs && audit.jobs[j] == old(audit.jobs)[j]
      ensures r.Err? ==>
        && audit.jobs == old(audit.jobs) && audit.feedback == old(audit.feedback)
        && failures == old(failures) && dead == old(dead)
    {
      hide OutboxOk, ForeignKeys, SweepOk, JobSafe, Intact, TracesOk, SnapshotsOk, LabelsOk, LocksOk, Ordered;
      ghost var before := audit.jobs;
      r := audit.FailSyncJob(job.jobId, job.feedbackId, permanent, now);
      if r.Ok? {
        FailKeepsSweep(before, audit.nextJobId, job.jobId, maxAttempts, failures, dead, permanent,
                       audit.jobs[job.jobId]);
        failures := failures[job.jobId := Count(failures, job.jobId) + 1];
        dead := if permanent then dead + {job.jobId} else dead;
      } else {
        ReleaseKeepsSweep(before, audit.nextJobId, job.jobId, maxAttempts, failures, dead);
      }
    }

    /**
     * Claims one job and either parks it at its Qdrant write or fails it for good.
     * A claimed job always has its context and, for a bad case, its golden source,
     * so only building a point can raise a payload error.
     */
    method ClaimOne(round: nat, profile: bool, build: Builder, now: int) returns (claimed: bool, parked: bool)
      requires Safe(None)
      modifies this`inFlight, this`phase, this`result, this`failures, this`dead, audit`jobs, audit`feedback
      ensures if parked then Inv() else Safe(None)
      ensures parked ==> claimed && phase.AwaitingQdrant? && phase.job.jobId !in dead && phase.round == round
      ensures parked ==> Aimed(build) && phase.profile == profile
      ensures claimed ==> result == old(result).(claimed := old(result).claimed + 1, failed := result.failed)
      ensures claimed ==> result.failed == old(result).failed + if parked then 0 else 1
      ensures claimed <==> InState(old(audit.jobs), JobState.Pending) != {}
      ensures SettledStay(old(audit.jobs), audit.jobs)
      ensures old(dead) <= dead && FailuresGrow(old(failures), failures)
    {
      hide OutboxOk, ForeignKeys, SweepOk, JobSafe, Intact, TracesOk, SnapshotsOk, LabelsOk, LocksOk, Ordered;
      ghost var before := audit.jobs;
      var claim := audit.ClaimNextSyncJob(now);
      if claim.None? {
        return false, false;
      }
      var job := claim.value;
      MoveKeepsSweep(before, audit.nextJobId, None, Some(job.jobId), maxAttempts, failures, dead, job.jobId,
                     audit.jobs[job.jobId]);
      result := result.(claimed := result.claimed + 1);
      var point :=
        if job.action.SetBadCase? then audit.feedback[job.feedbackId].source.pointId
        else if profile then build(job.feedbackId) else None;
      assert job.action.SetBadCase? ==> point.Some?;
      parked := ParkOrFail(job, point, round, profile, now);
      claimed := true;
    }

    /** A claimed job waits for its write, or fails for good when there is nothing to write. */
    method ParkOrFail(job: PendingSyncJob, point: Option<PointId>, round: nat, profile: bool, now: int)
      returns (parked: bool)
      requires Safe(Some(job.jobId)) && Claimed(job) && job.jobId !in dead
      modifies this`inFlight, this`phase, this`result, this`failures, this`dead, audit`jobs, audit`feedback
      ensures if parked then Inv() else Safe(None)
      ensures parked == point.Some? && (parked ==> phase == AwaitingQdrant(job, point.value, round, profile))
      ensures parked ==> audit.feedback == old(audit.feedback)
      ensures result == if parked then old(result) else old(result).(failed := old(result).failed + 1)
      ensures !parked && job.jobId in old(audit.jobs) && old(audit.jobs)[job.jobId].state.Running? ==>
        job.jobId in audit.jobs && audit.jobs[job.jobId].attempts == MAX_SAFE_INTEGER
      ensures forall j | j in old(audit.jobs) && j != job.jobId ::
        j in audit.jobs && audit.jobs[j] == old(audit.jobs)[j]
      ensures job.jobId in old(audit.jobs) <==> job.jobId in audit.jobs
      ensures old(dead) <= dead && (parked ==> dead == old(dead)) && FailuresGrow(old(failures), failures)
      ensures job.jobId in audit.jobs && old(audit.jobs)[job.jobId].state.Running? ==>
        audit.jobs[job.jobId].state.Running? || audit.jobs[job.jobId].state.Failed?
    {
      hide OutboxOk, ForeignKeys, SweepOk, JobSafe, Intact, TracesOk, SnapshotsOk, LabelsOk, LocksOk, Ordered;
      parked := point.Some?;
      if parked {
        inFlight, phase := true, AwaitingQdrant(job, point.value, round, profile);
        return;
      }
      var r := Fail(job, true, now);
      result := result.(failed := result.failed + 1);
    }

    /** Claims jobs from round `first` on, up to the next Qdrant write or the end of the sweep. */
    method NextJobs(first: nat, profile: bool, build: Builder, now: int)
      requires Safe(None)
      modifies this, audit`jobs, audit`feedback
      ensures Inv()
      ensures phase.Idle? || (phase.AwaitingQdrant? && phase.job.jobId !in dead && phase.round < batchSize)
      ensures Aimed(build) && (phase.AwaitingQdrant? ==> phase.profile == profile)
      ensures SettledStay(old(audit.jobs), audit.jobs)
      ensures old(dead) <= dead && FailuresGrow(old(failures), failures)
    {
      hide OutboxOk, ForeignKeys, SweepOk, JobSafe, InState, Intact, TracesOk, SnapshotsOk, LabelsOk, LocksOk, Ordered;
      var round := first;
      while round < batchSize
        invariant Safe(None)
        invariant SettledStay(old(audit.jobs), audit.jobs)
        invariant old(dead) <= dead && FailuresGrow(old(failures), failures)
      {
        var claimed, parked := ClaimOne(round, profile, build, now);
        if parked {
          return;
        }
        if !claimed {
          break;
        }
        round := round + 1;
      }
      EndSweep();
    }

    /** Marks the held job as its write ended; tells whether the sweep goes on. */
    method SettleHeld(written: bool, now: int) returns (goOn: bool)
      requires Inv() && phase.AwaitingQdrant?
      modifies this`result, this`failures, this`dead, audit`jobs, audit`feedback
      ensures audit.jobs.Keys == old(audit.jobs).Keys
      ensures forall j | j in old(audit.jobs) && j != phase.job.jobId :: audit.jobs[j] == old(audit.jobs)[j]
      ensures
        var j := phase.job.jobId;
        j in old(audit.jobs) && old(audit.jobs)[j].state.Running? ==>
          && j in audit.jobs && audit.jobs[j].state == (if written then Succeeded else JobState.Failed)
          && audit.jobs[j].attempts == old(audit.jobs)[j].attempts + (if written then 0 else 1)
          && goOn == (written || !phase.profile)
          && (written ==>
                && phase.job.feedbackId in audit.feedback && audit.feedback[phase.job.feedbackId].syncStatus.Synced?
                && audit.feedback[phase.job.feedbackId].targetPointId == Some(phase.target)
                && result == old(result).(succeeded := old(result).succeeded + 1))
          && (!written ==> result == old(result).(failed := old(result).failed + 1))
      ensures
        var j := phase.job.jobId;
        !(j in old(audit.jobs) && old(audit.jobs)[j].state.Running?) ==>
          && audit.jobs == old(audit.jobs) && audit.feedback == old(audit.feedback)
          && failures == old(failures) && !goOn
      ensures Safe(None) && dead == old(dead) && FailuresGrow(old(failures), failures)
    {
      hide OutboxOk, ForeignKeys, SweepOk, JobSafe, Intact, TracesOk, SnapshotsOk, LabelsOk, LocksOk, Ordered;
      var job := phase.job;
      if written {
        ghost var before := audit.jobs;
        var r := audit.CompleteSyncJob(job.jobId, job.feedbackId, phase.target, now);
        if r.Ok? {
          MoveKeepsSweep(before, audit.nextJobId, Some(job.jobId), None, maxAttempts, failures, dead, job.jobId,
                         audit.jobs[job.jobId]);
          result := result.(succeeded := result.succeeded + 1);
          return true;
        }
      }
      result := result.(failed := result.failed + 1);
      var r := Fail(job, false, now);
      goOn := r.Ok? && !phase.profile;
    }

    /**
     * The Qdrant write of the held job ended. When the job was superseded
     * meanwhile, no row changes and the sweep ends.
     */
    method ResumeQdrant(written: bool, build: Builder, now: int)
      requires Inv() && phase.AwaitingQdrant?
      modifies this, audit`jobs, audit`feedback
      ensures Inv() && old(dead) <= dead && FailuresGrow(old(failures), failures)
      ensures
        var j := old(phase).job.jobId;
        !(j in old(audit.jobs) && old(audit.jobs)[j].state.Running?) ==>
          && audit.jobs == old(audit.jobs) && audit.feedback == old(audit.feedback)
          && failures == old(failures) && phase.Idle?
      ensures
        var j := old(phase).job.jobId;
        j in old(audit.jobs) && old(audit.jobs)[j].state.Running? ==>
          j in audit.jobs && audit.jobs[j].state == if written then Succeeded else JobState.Failed
      ensures SegmentFollows(old(audit.jobs), audit.jobs)
    {
      hide OutboxOk, ForeignKeys, SweepOk, JobSafe, Intact, TracesOk, SnapshotsOk, LabelsOk, LocksOk, Ordered, Aimed;
      var round, profile := phase.round, phase.profile;
      var goOn := SettleHeld(written, now);
      if goOn {
        NextJobs(round + 1, profile, build, now);
      } else {
        EndSweep();
      }
    }

    /** A label stored while the sweep waits. */
    method Label(input: LabelRequest, persona: bool, source: Source, now: int)
      returns (r: Result<LabelStatus, StoreError>)
      requires Inv()
      modifies audit
      ensures Inv()
      ensures r.Ok? ==> (input.traceId, input.expectedRevisionNo) !in old(audit.accepted)
      ensures audit.accepted ==
        if r.Ok? then old(audit.accepted) + {(input.traceId, input.expectedRevisionNo)} else old(audit.accepted)
      ensures SegmentFollows(old(audit.jobs), audit.jobs)
      ensures NothingLost(old(audit.transitions), audit.transitions, old(audit.traces), audit.traces)
    {
      hide OutboxOk, ForeignKeys, SweepOk, JobSafe, RowsGrow, Intact, TracesOk, SnapshotsOk, LabelsOk, LocksOk, Ordered;
      RowsStay(audit.transitions);
      ghost var before, next := audit.jobs, audit.nextJobId;
      ghost var known := if input.traceId in audit.traces then audit.traces[input.traceId].currentFeedback else None;
      ghost var f := if known.Some? then known.value else audit.nextFeedbackId;
      ghost var target := if known.Some? && f in audit.feedback then audit.feedback[f].targetPointId else None;
      ghost var row := LabelRow(input, source, target);
      r := audit.SubmitLabel(input, persona, source, now);
      if r.Ok? {
        LabelKeepsSweep(before, next, Held(), maxAttempts, failures, dead, f, row, ActionOf(row), now);
      }
    }

    /** A retention prune while the sweep waits. */
    method Prune(cutoff: int)
      requires Inv()
      modifies audit
      ensures Inv() && audit.accepted == old(audit.accepted)
      ensures SegmentFollows(old(audit.jobs), audit.jobs)
    {
      hide OutboxOk, ForeignKeys, SweepOk, JobSafe;
      ghost var before := audit.jobs;
      var r := audit.PruneTracesOlderThan(cutoff);
      FewerKeepsSweep(before, audit.jobs, audit.nextJobId, Held(), maxAttempts, failures, dead);
    }

    /** The live pipeline's writes while the sweep waits. */
    method Record(e: Event)
      requires Inv()
      modifies audit
      ensures Inv() && audit.accepted == old(audit.accepted)
      ensures audit.jobs == old(audit.jobs) && audit.feedback == old(audit.feedback)
      ensures NothingLost(old(audit.transitions), audit.transitions, old(audit.traces), audit.traces)
    {
      hide OutboxOk, ForeignKeys, SweepOk, JobSafe, RowsGrow, Appended, SnapsStored, Inserted, NextRow, DistinctSnaps;
      hide Intact, TracesOk, SnapshotsOk, LabelsOk, LocksOk, Ordered;
      RowsStay(audit.transitions);
      match e
      case NewSession(id) =>
        var r := audit.CreateSession(id);
      case NewTrace(t, id, message) =>
        if t !in audit.seen || t in audit.traces {
          var r := audit.CreateTrace(t, id, message);
        }
      case Transition(t, from, to, reason, now, snaps) =>
        var r := audit.AppendTransition(t, from, to, reason, now, snaps);
      case _ =>
    }

    method Step(e: Event)
      requires Inv()
      modifies this, audit
      ensures Inv()
      ensures old(dead) <= dead && old(audit.accepted) <= audit.accepted
      ensures FailuresGrow(old(failures), failures)
      ensures e.Crashed? ==> phase.Idle? && forall j | j in audit.jobs :: !audit.jobs[j].state.Running?
      ensures forall j | j in old(audit.jobs) && j in audit.jobs ::
        audit.jobs[j].state in WithinSegment(old(audit.jobs)[j].state) <==>
        !((e.Restarted? || e.Crashed?) && old(audit.jobs)[j].state.Running?)
      ensures !e.PruneDue? ==> NothingLost(old(audit.transitions), audit.transitions, old(audit.traces), audit.traces)
    {
      hide OutboxOk, ForeignKeys, SweepOk, JobSafe, RowsGrow;
      RowsStay(audit.transitions);
      match e
      case Labelled(input, persona, source, now) =>
        var r := Label(input, persona, source, now);
      case PruneDue(cutoff) =>
        Prune(cutoff);
      case Restarted(now) =>
        Start(now);
      case Crashed(now) =>
        Crash(now);
      case SweepDue(now) =>
        BeginSweep(now);
      case ProfileRead(outcome, build, now) =>
        if phase.AwaitingProfile? {
          ResumeProfile(outcome, build, now);
        }
      case QdrantWrote(written, build, now) =>
        if phase.AwaitingQdrant? {
          ResumeQdrant(written, build, now);
        }
      case _ =>
        Record(e);
    }

    /**
     * Any sequence of audit writes, labels, prunes, restarts, crashes and sweep segments.
     * A segment that is not waited for is skipped.
     */
    method Run(events: seq<Event>)
      requires Inv()
      modifies this, audit
      ensures Inv() && audit.Valid()
      ensures old(dead) <= dead && forall j | j in dead && j in audit.jobs :: audit.jobs[j].state.Failed?
      ensures forall j | j in failures :: failures[j] <= maxAttempts
      ensures forall i, j | i in audit.jobs && j in audit.jobs ::
        audit.jobs[i].state.Running? && audit.jobs[j].state.Running? ==> i == j
      ensures forall j | j in audit.jobs && audit.jobs[j].state in {JobState.Pending, JobState.Running} ::
        audit.jobs[j].attempts < maxAttempts
      ensures old(audit.accepted) <= audit.accepted
      ensures FailuresGrow(old(failures), failures)
      ensures (forall e | e in events :: !e.PruneDue?) ==>
        NothingLost(old(audit.transitions), audit.transitions, old(audit.traces), audit.traces)
    {
      hide OutboxOk, ForeignKeys, SweepOk, JobSafe, RowsGrow;
      RowsStay(audit.transitions);
      for i := 0 to |events|
        invariant Inv()
        invariant old(dead) <= dead && old(audit.accepted) <= audit.accepted && FailuresGrow(old(failures), failures)
        invariant (forall e | e in events :: !e.PruneDue?) ==>
          NothingLost(old(audit.transitions), audit.transitions, old(audit.traces), audit.traces)
      {
        ghost var rows := audit.transitions;
        Step(events[i]);
        if forall e | e in events :: !e.PruneDue? {
          RowsGrowTrans(old(audit.transitions), rows, audit.transitions);
        }
      }
      SweepConsequences(audit.jobs, audit.nextJobId, Held(), maxAttempts, failures, dead);
    }
  }

  lemma RowsStay(rows: seq<Row>)
    ensures RowsGrow(rows, rows)
  {
  }

  lemma SweepConsequences(jobs: map<JobId, Job>, nextJobId: JobId, held: Option<JobId>, maxAttempts: nat,
                          failures: map<JobId, nat>, dead: set<JobId>)
    requires SweepOk(jobs, nextJobId, held, maxAttempts, failures, dead)
    ensures forall j | j in dead && j in jobs :: jobs[j].state.Failed?
    ensures forall j | j in failures :: failures[j] <= maxAttempts
    ensures forall j | j in jobs && jobs[j].state.Running? :: held == Some(j)
    ensures forall j | j in jobs && jobs[j].state in {JobState.Pending, JobState.Running} ::
      jobs[j].attempts < maxAttempts
  {
    forall j | j in jobs
      ensures jobs[j].state in {JobState.Pending, JobState.Running} ==> jobs[j].attempts < maxAttempts
      ensures j in dead ==> jobs[j].state.Failed?
      ensures jobs[j].state.Running? ==> held == Some(j)
    {
      assert JobSafe(jobs[j], j, held, maxAttempts, Count(failures, j), j in dead);
    }
  }

  lemma EligibleMayRun(jobs: map<JobId, Job>, ids: seq<JobId>, now: int, maxAttempts: nat, retryBaseMs: nat,
                       retryMaxMs: nat)
    requires forall j | j in ids :: j in jobs && Eligible(jobs[j], now, maxAttempts, retryBaseMs, retryMaxMs)
    ensures forall j | j in ids :: jobs[j].attempts < maxAttempts
  {
  }
}
