/**
 * Label feedback and the transactional outbox that carries it to `golden_set`:
 * the two tables, the invariant that ties them, and what each statement does to it.
 */
module Outbox {
  import opened Wrappers
  import opened Trace

  type FeedbackId = nat
  type JobId = nat
  type PointId = string

  /** Larger than any attempt count the worker can reach: marks a permanent failure. */
  const MAX_SAFE_INTEGER := 9007199254740991

  datatype LabelStatus = Unlabeled | Accepted | Rejected | Corrected
  datatype SyncStatus = NotRequired | Pending | Synced | Failed
  datatype JobState = Pending | Running | Succeeded | Failed
  datatype Action = Upsert | SetBadCase
  datatype Correction = Correction(quickReply: string, cues: seq<string>)

  /** The direct decision a displayed suggestion came from, if any. */
  datatype Source = Source(golden: bool, pointId: Option<PointId>)

  /** The idempotency key `feedbackId:revisionNo:action`. */
  datatype Key = Key(feedbackId: FeedbackId, revisionNo: nat, action: Action)

  datatype Feedback = Feedback(
    traceId: TraceId, revisionNo: nat, score: nat, correction: Option<Correction>, labelStatus: LabelStatus,
    syncStatus: SyncStatus, isBadCase: bool, source: Source, targetPointId: Option<PointId>)

  datatype Job = Job(feedbackId: FeedbackId, key: Key, state: JobState, attempts: nat, createdAt: int, updatedAt: int)

  function LabelOf(score: nat, corrected: bool): LabelStatus {
    if corrected then Corrected else if score == 0 then Rejected else Accepted
  }

  /** Which job a label creates, if any. */
  function RefluxAction(status: LabelStatus, score: nat, corrected: bool, source: Source): Option<Action> {
    if corrected then Some(Upsert)
    else if status == Accepted && score >= 85 then Some(Upsert)
    else if status == Rejected && source.golden && source.pointId.Some? then Some(SetBadCase)
    else None
  }

  predicate Open(job: Job) {
    !job.state.Succeeded?
  }

  /** The outbox table of the contract package: which state may follow which. */
  function OutboxSuccessors(state: JobState): set<JobState> {
    match state
    case Pending => {Running}
    case Running => {Succeeded, JobState.Failed}
    case Failed => {JobState.Pending}
    case Succeeded => {}
  }

  /** The table has four edges, and one segment of a sweep reaches at most two of them. */
  lemma OutboxTable(from: JobState, to: JobState)
    ensures to in OutboxSuccessors(from) <==> (from, to) in {
      (JobState.Pending, Running), (Running, Succeeded), (Running, JobState.Failed),
      (JobState.Failed, JobState.Pending)}
    ensures to in WithinSegment(from) <==>
      || to == from || from == JobState.Pending
      || (from == Running && to in {Succeeded, JobState.Failed}) || (from == JobState.Failed && to == JobState.Pending)
  {
  }

  predicate Follows(from: JobState, to: JobState) {
    to == from || to in OutboxSuccessors(from)
  }

  /** Where a job may stand after one segment of a sweep, which may claim and finish it at once. */
  function WithinSegment(from: JobState): set<JobState> {
    {from} + OutboxSuccessors(from) + if from.Pending? then OutboxSuccessors(Running) else {}
  }

  /** Every job that is still there moved along at most two listed edges, the first of them a claim. */
  ghost predicate SegmentFollows(jobs: map<JobId, Job>, jobs': map<JobId, Job>) {
    forall j | j in jobs && j in jobs' :: jobs'[j].state in WithinSegment(jobs[j].state)
  }

  /** Every job that is still there stayed in its state or moved along a listed edge. */
  ghost predicate JobsFollow(jobs: map<JobId, Job>, jobs': map<JobId, Job>) {
    forall j | j in jobs && j in jobs' :: Follows(jobs[j].state, jobs'[j].state)
  }

  function StatusFor(state: JobState): SyncStatus {
    match state
    case Pending => SyncStatus.Pending
    case Running => SyncStatus.Pending
    case Succeeded => Synced
    case Failed => SyncStatus.Failed
  }

  /** The insert trigger: a bad-case job needs a rejected golden direct source. */
  predicate BadCaseAllowed(f: Feedback) {
    f.labelStatus.Rejected? && f.isBadCase && f.source.golden && f.source.pointId.Some?
  }

  /** What an upsert needs from its label: a correction, or a score worth reusing. */
  predicate UpsertAllowed(f: Feedback) {
    (f.labelStatus.Corrected? && f.correction.Some?) || (f.labelStatus.Accepted? && f.score >= 85)
  }

  predicate Justified(f: Feedback, action: Action) {
    match action
    case Upsert => UpsertAllowed(f)
    case SetBadCase => BadCaseAllowed(f)
  }

  /** `j` is the job written for the label that now stands. */
  predicate Current(feedback: map<FeedbackId, Feedback>, job: Job) {
    job.feedbackId in feedback && job.key.revisionNo == feedback[job.feedbackId].revisionNo
  }

  ghost predicate JobOk(feedback: map<FeedbackId, Feedback>, job: Job) {
    && job.feedbackId in feedback
    && job.key.feedbackId == job.feedbackId
    && 1 <= job.key.revisionNo <= feedback[job.feedbackId].revisionNo
    && (Open(job) ==> Current(feedback, job) && Justified(feedback[job.feedbackId], job.key.action))
    && (Current(feedback, job) ==> feedback[job.feedbackId].syncStatus == StatusFor(job.state))
  }

  /**
   * The outbox invariant: a feedback has at most one job per revision, only the
   * job of its current revision can be open, and `syncStatus` follows that job.
   */
  ghost predicate OutboxOk(feedback: map<FeedbackId, Feedback>, jobs: map<JobId, Job>) {
    && (forall j | j in jobs :: JobOk(feedback, jobs[j]))
    && (forall i, j | i in jobs && j in jobs && i != j :: !SameRevision(jobs[i], jobs[j]))
    && (forall f | f in feedback :: feedback[f].syncStatus == NotRequired || HasCurrent(feedback, jobs, f))
  }

  predicate SameRevision(a: Job, b: Job) {
    a.feedbackId == b.feedbackId && a.key.revisionNo == b.key.revisionNo
  }

  ghost predicate HasCurrent(feedback: map<FeedbackId, Feedback>, jobs: map<JobId, Job>, f: FeedbackId) {
    exists j :: j in jobs && jobs[j].feedbackId == f && Current(feedback, jobs[j])
  }

  /** Some job of `f` stands in one of the given states. */
  ghost predicate HasJobIn(jobs: map<JobId, Job>, f: FeedbackId, states: set<JobState>) {
    exists j :: j in jobs && jobs[j].feedbackId == f && jobs[j].state in states
  }

  /**
   * What the invariant gives a reader of the tables: one open job per feedback,
   * no two jobs with one idempotency key, and a status that is exactly what the
   * open job says.
   */
  lemma OutboxConsequences(feedback: map<FeedbackId, Feedback>, jobs: map<JobId, Job>)
    requires OutboxOk(feedback, jobs)
    ensures forall i, j | i in jobs && j in jobs && Open(jobs[i]) && Open(jobs[j]) ::
              jobs[i].feedbackId == jobs[j].feedbackId ==> i == j
    ensures forall i, j | i in jobs && j in jobs && jobs[i].key == jobs[j].key :: i == j
    ensures forall f | f in feedback ::
              && (HasJobIn(jobs, f, {JobState.Pending, JobState.Running}) <==> feedback[f].syncStatus.Pending?)
              && (HasJobIn(jobs, f, {JobState.Failed}) <==> feedback[f].syncStatus.Failed?)
              && (feedback[f].syncStatus.Synced? ==> HasJobIn(jobs, f, {Succeeded}))
  {
    forall f | f in feedback
      ensures HasJobIn(jobs, f, {JobState.Pending, JobState.Running}) <==> feedback[f].syncStatus.Pending?
      ensures HasJobIn(jobs, f, {JobState.Failed}) <==> feedback[f].syncStatus.Failed?
      ensures feedback[f].syncStatus.Synced? ==> HasJobIn(jobs, f, {Succeeded})
    {
      if feedback[f].syncStatus != NotRequired {
        assert HasCurrent(feedback, jobs, f);
        var c :| c in jobs && jobs[c].feedbackId == f && Current(feedback, jobs[c]);
        assert JobOk(feedback, jobs[c]);
      }
      forall j | j in jobs && jobs[j].feedbackId == f && Open(jobs[j])
        ensures feedback[f].syncStatus == StatusFor(jobs[j].state)
      {
        assert JobOk(feedback, jobs[j]);
      }
    }
    forall i, j | i in jobs && j in jobs && Open(jobs[i]) && Open(jobs[j]) && jobs[i].feedbackId == jobs[j].feedbackId
      ensures i == j
    {
      assert JobOk(feedback, jobs[i]) && JobOk(feedback, jobs[j]);
    }
  }

  // ------------------------------------------------------------------ labelling

  /** The jobs that survive a new label on `f`: everything but its open ones. */
  function WithoutOpen(jobs: map<JobId, Job>, f: FeedbackId): map<JobId, Job> {
    map j | j in jobs && !(jobs[j].feedbackId == f && Open(jobs[j])) :: jobs[j]
  }

  function JobFor(f: FeedbackId, revisionNo: nat, action: Action, at: int): Job {
    Job(f, Key(f, revisionNo, action), JobState.Pending, 0, at, at)
  }

  /** The jobs after label number `row.revisionNo` on `f` was stored. */
  function Relabelled(jobs: map<JobId, Job>, f: FeedbackId, row: Feedback, action: Option<Action>, id: JobId, at: int)
    : map<JobId, Job>
  {
    if action.None? then WithoutOpen(jobs, f)
    else WithoutOpen(jobs, f)[id := JobFor(f, row.revisionNo, action.value, at)]
  }

  /**
   * Storing a label keeps the invariant, its bad-case trigger accepts the job,
   * and its idempotency key is new.
   */
  lemma LabelKeeps(feedback: map<FeedbackId, Feedback>, jobs: map<JobId, Job>, f: FeedbackId, row: Feedback,
                   action: Option<Action>, id: JobId, at: int)
    requires OutboxOk(feedback, jobs)
    requires id !in jobs
    requires row.revisionNo == (if f in feedback then feedback[f].revisionNo else 0) + 1
    requires row.labelStatus == LabelOf(row.score, row.correction.Some?)
    requires row.isBadCase == (row.labelStatus.Rejected? && row.correction.None? && row.source.pointId.Some?)
    requires action == RefluxAction(row.labelStatus, row.score, row.correction.Some?, row.source)
    requires row.syncStatus == if action.None? then NotRequired else SyncStatus.Pending
    ensures OutboxOk(feedback[f := row], Relabelled(jobs, f, row, action, id, at))
    ensures action.Some? ==> Justified(row, action.value)
    ensures forall j | j in jobs :: jobs[j].key.feedbackId != f || jobs[j].key.revisionNo != row.revisionNo
  {
    var feedback' := feedback[f := row];
    var jobs' := Relabelled(jobs, f, row, action, id, at);
    forall j | j in jobs
      ensures jobs[j].key.feedbackId != f || jobs[j].key.revisionNo != row.revisionNo
    {
      assert JobOk(feedback, jobs[j]);
    }
    forall j | j in jobs'
      ensures JobOk(feedback', jobs'[j])
    {
      if j in jobs && j != id {
        assert JobOk(feedback, jobs[j]);
      }
    }
    forall i, j | i in jobs' && j in jobs' && i != j
      ensures !SameRevision(jobs'[i], jobs'[j])
    {
      if i in jobs && i != id {
        assert JobOk(feedback, jobs[i]);
      }
      if j in jobs && j != id {
        assert JobOk(feedback, jobs[j]);
      }
    }
    forall g | g in feedback'
      ensures feedback'[g].syncStatus == NotRequired || HasCurrent(feedback', jobs', g)
    {
      if g == f {
        if action.Some? {
          assert id in jobs' && jobs'[id].feedbackId == g && Current(feedback', jobs'[id]);
        }
      } else if feedback[g].syncStatus != NotRequired {
        assert HasCurrent(feedback, jobs, g);
        var c :| c in jobs && jobs[c].feedbackId == g && Current(feedback, jobs[c]);
        assert c in jobs' && jobs'[c].feedbackId == g && Current(feedback', jobs'[c]);
      }
    }
  }

  // ------------------------------------------------------------------ one job moves

  /** A job and its feedback's status after the job moved to `state`. */
  lemma MoveKeeps(feedback: map<FeedbackId, Feedback>, jobs: map<JobId, Job>, j: JobId, job: Job, row: Feedback)
    requires OutboxOk(feedback, jobs)
    requires j in jobs && Open(jobs[j])
    requires job.feedbackId == jobs[j].feedbackId && job.key == jobs[j].key
    requires row == feedback[job.feedbackId].(syncStatus := StatusFor(job.state), targetPointId := row.targetPointId)
    ensures OutboxOk(feedback[job.feedbackId := row], jobs[j := job])
  {
    var feedback' := feedback[job.feedbackId := row];
    var jobs' := jobs[j := job];
    assert JobOk(feedback, jobs[j]);
    forall i | i in jobs'
      ensures JobOk(feedback', jobs'[i])
    {
      assert JobOk(feedback, jobs[i]);
      if i != j && jobs[i].feedbackId == job.feedbackId {
        assert !SameRevision(jobs[i], jobs[j]);
      }
    }
    forall h, i | h in jobs' && i in jobs' && h != i
      ensures !SameRevision(jobs'[h], jobs'[i])
    {
      assert !SameRevision(jobs[h], jobs[i]);
    }
    forall g | g in feedback'
      ensures feedback'[g].syncStatus == NotRequired || HasCurrent(feedback', jobs', g)
    {
      if g == job.feedbackId {
        assert j in jobs' && jobs'[j].feedbackId == g && Current(feedback', jobs'[j]);
      } else if feedback[g].syncStatus != NotRequired {
        assert HasCurrent(feedback, jobs, g);
        var c :| c in jobs && jobs[c].feedbackId == g && Current(feedback, jobs[c]);
        assert c in jobs' && jobs'[c].feedbackId == g && Current(feedback', jobs'[c]);
      }
    }
  }

  // ------------------------------------------------------------------ crash reset

  /** Every RUNNING job back to PENDING. */
  function Reset(jobs: map<JobId, Job>, now: int): map<JobId, Job> {
    map j | j in jobs ::
      if jobs[j].state.Running? then jobs[j].(state := JobState.Pending, updatedAt := now) else jobs[j]
  }

  lemma ResetKeeps(feedback: map<FeedbackId, Feedback>, jobs: map<JobId, Job>, now: int)
    requires OutboxOk(feedback, jobs)
    ensures OutboxOk(feedback, Reset(jobs, now))
  {
    var jobs' := Reset(jobs, now);
    forall j | j in jobs'
      ensures JobOk(feedback, jobs'[j])
    {
      assert JobOk(feedback, jobs[j]);
    }
    forall i, j | i in jobs' && j in jobs' && i != j
      ensures !SameRevision(jobs'[i], jobs'[j])
    {
      assert !SameRevision(jobs[i], jobs[j]);
    }
    forall g | g in feedback && feedback[g].syncStatus != NotRequired
      ensures HasCurrent(feedback, jobs', g)
    {
      assert HasCurrent(feedback, jobs, g);
      var c :| c in jobs && jobs[c].feedbackId == g && Current(feedback, jobs[c]);
      assert c in jobs' && jobs'[c].feedbackId == g && Current(feedback, jobs'[c]);
    }
  }

  lemma RelabelFollows(jobs: map<JobId, Job>, f: FeedbackId, row: Feedback, action: Option<Action>, id: JobId, at: int)
    requires id !in jobs
    ensures JobsFollow(jobs, Relabelled(jobs, f, row, action, id, at))
  {
  }

  /** The reset leaves the table exactly at the jobs it finds RUNNING. */
  lemma ResetFollowsIff(jobs: map<JobId, Job>, now: int)
    ensures forall j | j in jobs :: Follows(jobs[j].state, Reset(jobs, now)[j].state) <==> !jobs[j].state.Running?
    ensures JobsFollow(jobs, Reset(jobs, now)) <==> forall j | j in jobs :: !jobs[j].state.Running?
  {
    assert forall j | j in jobs :: Follows(jobs[j].state, Reset(jobs, now)[j].state) <==> !jobs[j].state.Running?;
  }

  // ------------------------------------------------------------------ ordering

  /** The jobs in one state. */
  function InState(jobs: map<JobId, Job>, state: JobState): set<JobId> {
    set j | j in jobs && jobs[j].state == state
  }

  predicate OldestCreated(jobs: map<JobId, Job>, ids: set<JobId>, j: JobId)
    requires ids <= jobs.Keys
  {
    j in ids && forall k | k in ids :: jobs[j].createdAt <= jobs[k].createdAt
  }

  predicate OldestUpdated(jobs: map<JobId, Job>, ids: set<JobId>, j: JobId)
    requires ids <= jobs.Keys
  {
    j in ids && forall k | k in ids :: jobs[j].updatedAt <= jobs[k].updatedAt
  }

  lemma {:induction false} OldestExists(jobs: map<JobId, Job>, ids: set<JobId>)
    requires ids != {} && ids <= jobs.Keys
    ensures exists j :: OldestCreated(jobs, ids, j)
    ensures exists j :: OldestUpdated(jobs, ids, j)
    decreases |ids|
  {
    var i :| i in ids;
    var rest := ids - {i};
    if rest == {} {
      assert ids == {i};
      assert OldestCreated(jobs, ids, i) && OldestUpdated(jobs, ids, i);
    } else {
      OldestExists(jobs, rest);
      var c :| OldestCreated(jobs, rest, c);
      var u :| OldestUpdated(jobs, rest, u);
      assert OldestCreated(jobs, ids, if jobs[i].createdAt <= jobs[c].createdAt then i else c);
      assert OldestUpdated(jobs, ids, if jobs[i].updatedAt <= jobs[u].updatedAt then i else u);
    }
  }

  /** `rows` are distinct members of `ids` in update order, none younger than one left out. */
  ghost predicate ListsFirst(jobs: map<JobId, Job>, ids: set<JobId>, rows: seq<JobId>) {
    && ids <= jobs.Keys
    && (forall i | 0 <= i < |rows| :: rows[i] in ids)
    && (forall i, k | 0 <= i < k < |rows| ::
          && rows[i] != rows[k] && rows[i] in jobs && rows[k] in jobs
          && jobs[rows[i]].updatedAt <= jobs[rows[k]].updatedAt)
    && (forall i, j | 0 <= i < |rows| && j in ids && j !in rows ::
          rows[i] in jobs && jobs[rows[i]].updatedAt <= jobs[j].updatedAt)
  }

  /** As `ListsFirst`, cut at `limit` and complete below it. */
  ghost predicate ListsOldest(jobs: map<JobId, Job>, ids: set<JobId>, rows: seq<JobId>, limit: nat) {
    && ListsFirst(jobs, ids, rows)
    && |rows| <= limit
    && (|rows| < limit ==> forall j | j in ids :: j in rows)
  }

  lemma ListsNext(jobs: map<JobId, Job>, ids: set<JobId>, rows: seq<JobId>, j: JobId)
    requires ListsFirst(jobs, ids, rows)
    requires OldestUpdated(jobs, ids - (set k | k in rows), j)
    ensures ListsFirst(jobs, ids, rows + [j])
  {
  }

  function Members(rows: seq<JobId>): set<JobId> {
    set j | j in rows
  }

  lemma {:induction false} DistinctMembers(rows: seq<JobId>)
    requires forall i, k | 0 <= i < k < |rows| :: rows[i] != rows[k]
    ensures |Members(rows)| == |rows|
  {
    if rows == [] {
      assert Members(rows) == {};
    } else {
      var n := |rows| - 1;
      DistinctMembers(rows[..n]);
      assert rows == rows[..n] + [rows[n]];
      assert Members(rows) == Members(rows[..n]) + {rows[n]};
      assert rows[n] !in rows[..n];
    }
  }

  ghost predicate DistinctTimes(jobs: map<JobId, Job>, ids: set<JobId>)
    requires ids <= jobs.Keys
  {
    forall i, j | i in ids && j in ids && i != j :: jobs[i].updatedAt != jobs[j].updatedAt
  }

  /** The failed jobs updated before `j`, and those updated no later. */
  function Earlier(jobs: map<JobId, Job>, ids: set<JobId>, j: JobId): set<JobId>
    requires j in jobs && ids <= jobs.Keys
  {
    set k | k in ids && jobs[k].updatedAt < jobs[j].updatedAt
  }

  function NoLater(jobs: map<JobId, Job>, ids: set<JobId>, j: JobId): set<JobId>
    requires j in jobs && ids <= jobs.Keys
  {
    set k | k in ids && k != j && jobs[k].updatedAt <= jobs[j].updatedAt
  }

  /**
   * Which failed jobs a cut listing reaches: it is cut before anything filters
   * it, so `limit` jobs that failed earlier, even permanently, hide all later
   * ones, and fewer than `limit` of them never do. When no two jobs failed at the
   * same time, a job is listed exactly when fewer than `limit` failed before it.
   */
  lemma ListedIffFewEarlier(jobs: map<JobId, Job>, ids: set<JobId>, rows: seq<JobId>, limit: nat, j: JobId)
    requires ListsOldest(jobs, ids, rows, limit) && j in ids
    ensures |Earlier(jobs, ids, j)| >= limit ==> j !in rows
    ensures |NoLater(jobs, ids, j)| < limit ==> j in rows
    ensures DistinctTimes(jobs, ids) ==> (j in rows <==> |Earlier(jobs, ids, j)| < limit)
  {
    DistinctMembers(rows);
    if DistinctTimes(jobs, ids) {
      assert NoLater(jobs, ids, j) == Earlier(jobs, ids, j);
    }
    if j in rows {
      var i :| 0 <= i < |rows| && rows[i] == j;
      assert forall k | k in ids && k !in rows :: jobs[rows[i]].updatedAt <= jobs[k].updatedAt;
      assert forall k | k in Earlier(jobs, ids, j) :: k in Members(rows) - {j};
      SubsetSize(Earlier(jobs, ids, j), Members(rows) - {j});
      assert |Members(rows) - {j}| == |rows| - 1;
    }
    if j !in rows {
      assert |rows| == limit;
      forall k | k in Members(rows)
        ensures k in NoLater(jobs, ids, j)
      {
        var i :| 0 <= i < |rows| && rows[i] == k;
        assert jobs[rows[i]].updatedAt <= jobs[j].updatedAt;
      }
      SubsetSize(Members(rows), NoLater(jobs, ids, j));
    }
  }

  lemma SubsetSize<T>(small: set<T>, large: set<T>)
    requires small <= large
    ensures |small| <= |large|
  {
    assert large == small + (large - small);
  }

  // ------------------------------------------------------------------ re-arming

  function Rearmed(jobs: map<JobId, Job>, ids: seq<JobId>, now: int): map<JobId, Job> {
    map j | j in jobs ::
      if j in ids && jobs[j].state.Failed? then jobs[j].(state := JobState.Pending, updatedAt := now) else jobs[j]
  }

  /** The listed jobs that have failed. */
  function FailedIn(jobs: map<JobId, Job>, ids: seq<JobId>): set<JobId> {
    set j | j in jobs && jobs[j].state.Failed? && j in ids
  }

  /** Some listed job, in whatever state, belongs to `f`. */
  predicate Listed(jobs: map<JobId, Job>, ids: seq<JobId>, f: FeedbackId) {
    exists j :: j in ids && j in jobs && jobs[j].feedbackId == f
  }

  function RearmedFeedback(feedback: map<FeedbackId, Feedback>, jobs: map<JobId, Job>, ids: seq<JobId>)
    : map<FeedbackId, Feedback>
  {
    map f | f in feedback ::
      if Listed(jobs, ids, f) && feedback[f].syncStatus.Failed?
      then feedback[f].(syncStatus := SyncStatus.Pending) else feedback[f]
  }

  /** Whenever a job of a feedback is listed, its failed job is listed too. */
  ghost predicate CoversFailed(jobs: map<JobId, Job>, ids: seq<JobId>) {
    forall j | j in jobs && jobs[j].state.Failed? && Listed(jobs, ids, jobs[j].feedbackId) :: j in ids
  }

  /**
   * Re-arming any list of ids keeps the invariant exactly when the list covers
   * the failed job of every feedback it touches: the statement moves the status
   * of every listed job's feedback, but only failed jobs themselves.
   */
  lemma RearmKeepsIff(feedback: map<FeedbackId, Feedback>, jobs: map<JobId, Job>, ids: seq<JobId>, now: int)
    requires OutboxOk(feedback, jobs)
    ensures OutboxOk(RearmedFeedback(feedback, jobs, ids), Rearmed(jobs, ids, now)) <==> CoversFailed(jobs, ids)
  {
    hide JobOk;
    if CoversFailed(jobs, ids) {
      RearmKeeps(feedback, jobs, ids, now);
    } else {
      var j :| j in jobs && jobs[j].state.Failed? && Listed(jobs, ids, jobs[j].feedbackId) && j !in ids;
      RearmBreaks(feedback, jobs, ids, now, j);
    }
  }

  /** Re-arming, job by job and label by label. */
  lemma RearmIsExact(feedback: map<FeedbackId, Feedback>, jobs: map<JobId, Job>, ids: seq<JobId>, now: int)
    ensures FailedIn(jobs, ids) == set j | j in jobs && j in ids && jobs[j].state.Failed?
    ensures Rearmed(jobs, ids, now).Keys == jobs.Keys
    ensures forall j | j in jobs ::
      if j in ids && jobs[j].state.Failed? then
        Rearmed(jobs, ids, now)[j] == jobs[j].(state := JobState.Pending, updatedAt := now)
      else Rearmed(jobs, ids, now)[j] == jobs[j]
    ensures RearmedFeedback(feedback, jobs, ids).Keys == feedback.Keys
    ensures forall f | f in feedback ::
      if feedback[f].syncStatus.Failed? && exists j :: j in ids && j in jobs && jobs[j].feedbackId == f
      then RearmedFeedback(feedback, jobs, ids)[f] == feedback[f].(syncStatus := SyncStatus.Pending)
      else RearmedFeedback(feedback, jobs, ids)[f] == feedback[f]
  {
  }

  lemma RearmFollows(jobs: map<JobId, Job>, ids: seq<JobId>, now: int)
    ensures JobsFollow(jobs, Rearmed(jobs, ids, now)) && JobsFollow(jobs, jobs)
  {
  }

  /** A sound table and a list for which the status of a feedback and its failed job part ways. */
  lemma RearmCanDrift(feedback: map<FeedbackId, Feedback>, jobs: map<JobId, Job>, now: int)
    requires feedback == map[
      0 := Feedback(0, 2, 90, None, Accepted, SyncStatus.Failed, false, Source(false, None), None)]
    requires jobs == map[
      0 := Job(0, Key(0, 1, Upsert), Succeeded, 0, 0, 0),
      1 := Job(0, Key(0, 2, Upsert), JobState.Failed, 1, 1, 1)]
    ensures OutboxOk(feedback, jobs)
    ensures !OutboxOk(RearmedFeedback(feedback, jobs, [0]), Rearmed(jobs, [0], now))
    ensures RearmedFeedback(feedback, jobs, [0])[0].syncStatus.Pending? && Rearmed(jobs, [0], now)[1].state.Failed?
  {
    assert 1 in jobs && jobs[1].feedbackId == 0 && Current(feedback, jobs[1]);
    assert 0 in [0] && 0 in jobs && jobs[0].feedbackId == 0;
    assert Listed(jobs, [0], 0);
    RearmKeepsIff(feedback, jobs, [0], now);
    assert 1 !in [0];
    assert !CoversFailed(jobs, [0]);
  }

  lemma RearmBreaks(feedback: map<FeedbackId, Feedback>, jobs: map<JobId, Job>, ids: seq<JobId>, now: int, j: JobId)
    requires OutboxOk(feedback, jobs)
    requires j in jobs && jobs[j].state.Failed? && Listed(jobs, ids, jobs[j].feedbackId) && j !in ids
    ensures !JobOk(RearmedFeedback(feedback, jobs, ids), Rearmed(jobs, ids, now)[j])
  {
    assert JobOk(feedback, jobs[j]);
  }

  lemma RearmKeeps(feedback: map<FeedbackId, Feedback>, jobs: map<JobId, Job>, ids: seq<JobId>, now: int)
    requires OutboxOk(feedback, jobs) && CoversFailed(jobs, ids)
    ensures OutboxOk(RearmedFeedback(feedback, jobs, ids), Rearmed(jobs, ids, now))
  {
    hide JobOk, CoversFailed, Listed;
    var feedback' := RearmedFeedback(feedback, jobs, ids);
    var jobs' := Rearmed(jobs, ids, now);
    forall j | j in jobs'
      ensures JobOk(feedback', jobs'[j])
    {
      RearmKeepsJob(feedback, jobs, ids, now, j);
    }
    forall i, j | i in jobs' && j in jobs' && i != j
      ensures !SameRevision(jobs'[i], jobs'[j])
    {
      assert !SameRevision(jobs[i], jobs[j]);
    }
    forall g | g in feedback' && feedback'[g].syncStatus != NotRequired
      ensures HasCurrent(feedback', jobs', g)
    {
      assert HasCurrent(feedback, jobs, g);
      var c :| c in jobs && jobs[c].feedbackId == g && Current(feedback, jobs[c]);
      assert c in jobs' && jobs'[c].feedbackId == g && Current(feedback', jobs'[c]);
    }
  }

  lemma RearmKeepsJob(feedback: map<FeedbackId, Feedback>, jobs: map<JobId, Job>, ids: seq<JobId>, now: int, j: JobId)
    requires forall i | i in jobs :: JobOk(feedback, jobs[i])
    requires CoversFailed(jobs, ids) && j in jobs
    ensures JobOk(RearmedFeedback(feedback, jobs, ids), Rearmed(jobs, ids, now)[j])
  {
    assert JobOk(feedback, jobs[j]);
    var f := jobs[j].feedbackId;
    if Current(feedback, jobs[j]) && feedback[f].syncStatus.Failed? {
      assert jobs[j].state.Failed?;
    }
  }

  // ------------------------------------------------------------------ pruning

  function FeedbackWithout(feedback: map<FeedbackId, Feedback>, gone: set<TraceId>): map<FeedbackId, Feedback> {
    map f | f in feedback && feedback[f].traceId !in gone :: feedback[f]
  }

  function JobsWithout(feedback: map<FeedbackId, Feedback>, jobs: map<JobId, Job>, gone: set<TraceId>)
    : map<JobId, Job>
  {
    map j | j in jobs && !(jobs[j].feedbackId in feedback && feedback[jobs[j].feedbackId].traceId in gone) :: jobs[j]
  }

  lemma PruneKeeps(feedback: map<FeedbackId, Feedback>, jobs: map<JobId, Job>, gone: set<TraceId>)
    requires OutboxOk(feedback, jobs)
    ensures OutboxOk(FeedbackWithout(feedback, gone), JobsWithout(feedback, jobs, gone))
    ensures forall j | j in JobsWithout(feedback, jobs, gone) :: jobs[j].feedbackId in feedback
  {
    var feedback' := FeedbackWithout(feedback, gone);
    var jobs' := JobsWithout(feedback, jobs, gone);
    forall j | j in jobs'
      ensures JobOk(feedback', jobs'[j]) && jobs[j].feedbackId in feedback
    {
      assert JobOk(feedback, jobs[j]);
    }
    forall g | g in feedback' && feedback'[g].syncStatus != NotRequired
      ensures HasCurrent(feedback', jobs', g)
    {
      assert HasCurrent(feedback, jobs, g);
      var c :| c in jobs && jobs[c].feedbackId == g && Current(feedback, jobs[c]);
      assert c in jobs' && jobs'[c].feedbackId == g && Current(feedback', jobs'[c]);
    }
  }
}
