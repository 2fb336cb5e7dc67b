/** The job table and its transitions as mathematical functions. `JobStore.dfy` refines them in
    place; the runs of `Runs.dfy` and `Protocol.dfy` are made of them. */
module Jobs {
  import opened Types
  import opened Ranks
  import opened Names

  const JOB: string := "job-"
  const DEFAULT_MAX_ATTEMPTS: int := 5

  datatype JobTable = JobTable(nextID: nat, jobs: map<string, SyncJob>, jobByDelta: map<string, string>)

  // ----- One job -----

  predicate Terminal(j: SyncJob) {
    j.state.Synced? || j.state.Dead?
  }

  predicate Live(j: SyncJob) {
    j.state.Pending? || j.state.Processing? || j.state.Retrying?
  }

  predicate LeaseLapsed(j: SyncJob, now: Time) {
    j.lockedUntil.None? || j.lockedUntil.value <= now
  }

  predicate Ready(j: SyncJob, now: Time) {
    match j.state
    case Pending | Retrying => j.availableAt <= now
    case Processing => LeaseLapsed(j, now)
    case _ => false
  }

  predicate Claimable(j: SyncJob, now: Time, syncID: string) {
    j.syncID == syncID && Ready(j, now)
  }

  predicate LeaseOwned(j: SyncJob, now: Time, workerID: string) {
    j.state.Processing? && j.lockedBy == Some(workerID) && j.lockedUntil.Some? && now < j.lockedUntil.value
  }

  function Claimed(j: SyncJob, workerID: string, now: Time, until: Time): SyncJob {
    j.(state := Processing, lockedBy := Some(workerID), lockedUntil := Some(until), updatedAt := now)
  }

  function Unlocked(j: SyncJob): SyncJob {
    j.(lockedBy := None, lockedUntil := None)
  }

  /** The closures handed to `updateOwned`, one constructor each. */
  datatype LeaseUpdate =
    | RenewLease(lockFor: int)
    | MarkSynced(ghostDetected: bool)
    | MarkRetrying(error: string, nextRunAt: Time)
    | RequeueClaimed(reason: string, nextRunAt: Time)
    | MarkDead(error: string)

  function Updated(j: SyncJob, u: LeaseUpdate, now: Time): SyncJob {
    match u
    case RenewLease(lockFor) =>
      j.(lockedUntil := Some(now + lockFor), updatedAt := now)
    case MarkSynced(ghost_) =>
      Unlocked(j).(state := Synced, ghostDetected := ghost_, syncedAt := Some(now), updatedAt := now)
    case MarkRetrying(error, nextRunAt) =>
      Unlocked(j).(state := Retrying, attemptCount := j.attemptCount + 1, lastError := Some(error),
                   availableAt := nextRunAt, updatedAt := now)
    case RequeueClaimed(reason, nextRunAt) =>
      Unlocked(j).(state := Retrying, lastError := Some(reason), availableAt := nextRunAt, updatedAt := now)
    case MarkDead(error) =>
      Unlocked(j).(state := Dead, attemptCount := j.attemptCount + 1, lastError := Some(error),
                   deadAt := Some(now), updatedAt := now)
  }

  /** The operator-facing lease controls. */
  datatype OperatorAction = ForceRelease(auditReason: string) | RequeueExpired(nextRunAt: Time, auditReason: string)

  /** The bytes of the white space character that `b` is the UTF-8 encoding of: the six of ASCII, U+0085,
      U+00A0, U+1680, U+2000 to U+200A, U+2028, U+2029, U+202F, U+205F and U+3000. */
  predicate IsSpace(b: seq<char>) {
    match |b|
    case 1 => b[0] == ' ' || '\t' <= b[0] <= '\r'
    case 2 => b[0] as int == 0xC2 && (b[1] as int == 0x85 || b[1] as int == 0xA0)
    case 3 =>
      var x, y, z := b[0] as int, b[1] as int, b[2] as int;
      || (x == 0xE1 && y == 0x9A && z == 0x80)
      || (x == 0xE2 && y == 0x80 && (0x80 <= z <= 0x8A || z == 0xA8 || z == 0xA9 || z == 0xAF))
      || (x == 0xE2 && y == 0x81 && z == 0x9F)
      || (x == 0xE3 && y == 0x80 && z == 0x80)
    case _ => false
  }

  /** The length of the white space character a text starts with, 0 if it starts with none. */
  function SpaceAhead(s: string): (n: nat)
    ensures n <= 3 && n <= |s| && (n > 0 ==> IsSpace(s[..n]))
  {
    if |s| >= 1 && IsSpace(s[..1]) then 1
    else if |s| >= 2 && IsSpace(s[..2]) then 2
    else if |s| >= 3 && IsSpace(s[..3]) then 3
    else 0
  }

  function SpaceBehind(s: string): (n: nat)
    ensures n <= 3 && n <= |s| && (n > 0 ==> IsSpace(s[|s| - n..]))
  {
    if |s| >= 1 && IsSpace(s[|s| - 1..]) then 1
    else if |s| >= 2 && IsSpace(s[|s| - 2..]) then 2
    else if |s| >= 3 && IsSpace(s[|s| - 3..]) then 3
    else 0
  }

  /** A text of white space only. */
  predicate Blank(s: string)
    decreases |s|
  {
    s == "" || (SpaceAhead(s) > 0 && Blank(s[SpaceAhead(s)..]))
  }

  function TrimSpace(s: string): (r: string)
    ensures r == "" <==> Blank(s)
    decreases |s|
  {
    if SpaceAhead(s) > 0 then TrimSpace(s[SpaceAhead(s)..])
    else if SpaceBehind(s) > 0 then
      TrimmedStaysNonblank(s);
      TrimSpace(s[..|s| - SpaceBehind(s)])
    else s
  }

  /** Cutting white space off the end of a text that starts with none leaves one that starts with none. */
  lemma TrimmedStaysNonblank(s: string)
    requires SpaceAhead(s) == 0 && SpaceBehind(s) > 0
    ensures var r := s[..|s| - SpaceBehind(s)];
      r != "" && SpaceAhead(r) == 0
  {
    hide IsSpace;
    var r := s[..|s| - SpaceBehind(s)];
    assert s[0..] == s[..|s|];
    assert forall n | 0 <= n <= |r| :: r[..n] == s[..n];
  }

  predicate LeaseExpired(j: SyncJob, now: Time) {
    j.state.Processing? && LeaseLapsed(j, now)
  }

  function Operated(j: SyncJob, op: OperatorAction, now: Time): SyncJob {
    match op
    case ForceRelease(reason) =>
      Unlocked(j).(lastError := Some("operator_force_release: " + TrimSpace(reason)), updatedAt := now)
    case RequeueExpired(nextRunAt, reason) =>
      Unlocked(j).(state := Retrying, availableAt := nextRunAt,
                   lastError := Some("operator_requeue: " + TrimSpace(reason)), updatedAt := now)
  }

  // ----- The claim order -----

  ghost predicate Keyed(jobs: map<string, SyncJob>) {
    forall id | id in jobs :: jobs[id].id == id
  }

  function ClaimRank(j: SyncJob): Rank {
    Rank(Some(j.availableAt), j.createdAt, j.id)
  }

  function ClaimRanks(jobs: map<string, SyncJob>, syncID: string, now: Time): set<Rank> {
    set id | id in jobs && Claimable(jobs[id], now, syncID) :: ClaimRank(jobs[id])
  }

  /** A listing of jobs by their claim ranks. */
  ghost predicate Lists(jobs: map<string, SyncJob>, q: seq<Rank>) {
    && Ascending(q)
    && (forall i | 0 <= i < |q| :: q[i].id in jobs && ClaimRank(jobs[q[i].id]) == q[i])
  }

  /** The claimable jobs of a sync, the next one to claim first. */
  ghost function ClaimQueue(jobs: map<string, SyncJob>, syncID: string, now: Time): (q: seq<Rank>)
    requires Keyed(jobs)
    ensures Lists(jobs, q) && AllIn(q, jobs)
  {
    QueueLists(jobs, syncID, now);
    Sorted(ClaimRanks(jobs, syncID, now))
  }

  lemma QueueLists(jobs: map<string, SyncJob>, syncID: string, now: Time)
    requires Keyed(jobs)
    ensures var q := Sorted(ClaimRanks(jobs, syncID, now));
      Lists(jobs, q) && forall i | 0 <= i < |q| :: Claimable(jobs[q[i].id], now, syncID)
  {
    hide Before;
    var q := Sorted(ClaimRanks(jobs, syncID, now));
    forall i | 0 <= i < |q|
      ensures q[i].id in jobs && ClaimRank(jobs[q[i].id]) == q[i] && Claimable(jobs[q[i].id], now, syncID)
    {
      assert q[i] in Elements(q);
    }
  }

  /** Every claimable job stands in the queue. */
  lemma QueuePosition(jobs: map<string, SyncJob>, syncID: string, now: Time, id: string) returns (i: nat)
    requires Keyed(jobs) && id in jobs && Claimable(jobs[id], now, syncID)
    ensures i < |ClaimQueue(jobs, syncID, now)| && ClaimQueue(jobs, syncID, now)[i] == ClaimRank(jobs[id])
  {
    hide Before;
    i := PositionOf(ClaimRanks(jobs, syncID, now), ClaimRank(jobs[id]));
  }

  function Lease(jobs: map<string, SyncJob>, id: string, workerID: string, now: Time, until: Time)
    : map<string, SyncJob>
    requires id in jobs
  {
    jobs[id := Claimed(jobs[id], workerID, now, until)]
  }

  /** A batch of claimed jobs names the job. */
  ghost predicate InBatch(batch: seq<SyncJob>, id: string) {
    exists k :: 0 <= k < |batch| && batch[k].id == id
  }

  ghost predicate AllIn(q: seq<Rank>, jobs: map<string, SyncJob>) {
    forall i | 0 <= i < |q| :: q[i].id in jobs
  }

  /** `ClaimNextBatch` walks the first `limit` entries of the claim queue and leases each. */
  ghost function LeaseAll(jobs: map<string, SyncJob>, q: seq<Rank>, workerID: string, now: Time, until: Time)
    : map<string, SyncJob>
    requires AllIn(q, jobs)
  {
    if q == [] then jobs
    else LeaseAll(Lease(jobs, q[0].id, workerID, now, until), q[1..], workerID, now, until)
  }

  /** The copies it hands to the worker. */
  ghost function Copies(jobs: map<string, SyncJob>, q: seq<Rank>, workerID: string, now: Time,
                        until: Time): seq<SyncJob>
    requires AllIn(q, jobs)
  {
    if q == [] then []
    else [Claimed(jobs[q[0].id], workerID, now, until)]
         + Copies(Lease(jobs, q[0].id, workerID, now, until), q[1..], workerID, now, until)
  }

  ghost function AfterBatch(t: JobTable, syncID: string, workerID: string, limit: int, now: Time, until: Time): JobTable
    requires Keyed(t.jobs) && limit >= 0
  {
    t.(jobs := LeaseAll(t.jobs, Take(ClaimQueue(t.jobs, syncID, now), limit), workerID, now, until))
  }

  ghost function BatchOf(t: JobTable, syncID: string, workerID: string, limit: int, now: Time,
                         until: Time): seq<SyncJob>
    requires Keyed(t.jobs) && limit >= 0
  {
    Copies(t.jobs, Take(ClaimQueue(t.jobs, syncID, now), limit), workerID, now, until)
  }

  /** `ClaimNext`: lease the head of the claim queue, if there is one. */
  ghost function AfterClaim(t: JobTable, syncID: string, workerID: string, now: Time, until: Time): (t': JobTable)
    requires Keyed(t.jobs)
    ensures Keyed(t'.jobs)
  {
    var q := ClaimQueue(t.jobs, syncID, now);
    if q == [] then t else t.(jobs := Lease(t.jobs, q[0].id, workerID, now, until))
  }

  ghost function NextJob(t: JobTable, syncID: string, workerID: string, now: Time, until: Time): Option<SyncJob>
    requires Keyed(t.jobs)
  {
    var q := ClaimQueue(t.jobs, syncID, now);
    if q == [] then None else Some(Claimed(t.jobs[q[0].id], workerID, now, until))
  }

  /** The same lease given to a whole set of jobs at once. */
  function LeaseSet(jobs: map<string, SyncJob>, ids: set<string>, workerID: string, now: Time, until: Time)
    : map<string, SyncJob>
  {
    map id | id in jobs :: if id in ids then Claimed(jobs[id], workerID, now, until) else jobs[id]
  }

  lemma DistinctIds(jobs: map<string, SyncJob>, q: seq<Rank>, i: int, j: int)
    requires Lists(jobs, q) && 0 <= i < |q| && 0 <= j < |q| && q[i].id == q[j].id
    ensures i == j
  {
    hide Before;
    DistinctPositions(q, i, j);
  }

  /** Leasing the head leaves a listing of the rest, which does not contain it. */
  lemma TailLists(jobs: map<string, SyncJob>, q: seq<Rank>, workerID: string, now: Time, until: Time)
    requires Lists(jobs, q) && q != []
    ensures Lists(Lease(jobs, q[0].id, workerID, now, until), q[1..])
    ensures forall i | 1 <= i < |q| :: q[i].id != q[0].id
    ensures Ids(q) == {q[0].id} + Ids(q[1..]) && q[0].id !in Ids(q[1..])
  {
    hide Before;
    forall i | 1 <= i < |q| ensures q[i].id != q[0].id {
      if q[i].id == q[0].id { DistinctIds(jobs, q, 0, i); }
    }
    assert forall i | 1 <= i < |q| :: q[1..][i - 1] == q[i];
  }

  /** Walking a listing leases each listed job once, and hands out a copy of it as leased. */
  lemma {:induction false} LeaseAllAtOnce(jobs: map<string, SyncJob>, q: seq<Rank>, workerID: string, now: Time,
                                          until: Time)
    requires Lists(jobs, q)
    ensures LeaseAll(jobs, q, workerID, now, until) == LeaseSet(jobs, Ids(q), workerID, now, until)
  {
    hide Before; hide Claimed; hide ClaimRank;
    if q != [] {
      TailLists(jobs, q, workerID, now, until);
      LeaseAllAtOnce(Lease(jobs, q[0].id, workerID, now, until), q[1..], workerID, now, until);
    }
  }

  lemma {:induction false} CopiesAreLeased(jobs: map<string, SyncJob>, q: seq<Rank>, workerID: string, now: Time,
                                           until: Time)
    requires Lists(jobs, q)
    ensures |Copies(jobs, q, workerID, now, until)| == |q|
    ensures forall i | 0 <= i < |q| ::
              Copies(jobs, q, workerID, now, until)[i] == Claimed(jobs[q[i].id], workerID, now, until)
  {
    hide Before; hide Claimed; hide ClaimRank;
    if q != [] {
      TailLists(jobs, q, workerID, now, until);
      CopiesAreLeased(Lease(jobs, q[0].id, workerID, now, until), q[1..], workerID, now, until);
    }
  }

  // ----- Lease holders and operators -----

  function UpdateError(t: JobTable, jobID: string, workerID: string, u: LeaseUpdate, now: Time): Option<Error> {
    if u.RenewLease? && u.lockFor <= 0 then Some(InvalidLockFor)
    else if jobID !in t.jobs then Some(JobNotFound)
    else if !LeaseOwned(t.jobs[jobID], now, workerID) then Some(JobLeaseNotOwned)
    else None
  }

  /** A lease mutator acts for the owner of a live lease and for nobody else. */
  function AfterUpdate(t: JobTable, jobID: string, workerID: string, u: LeaseUpdate, now: Time): JobTable {
    if UpdateError(t, jobID, workerID, u, now).None?
    then t.(jobs := t.jobs[jobID := Updated(t.jobs[jobID], u, now)]) else t
  }

  function OperatorError(t: JobTable, jobID: string, op: OperatorAction, now: Time): Option<Error> {
    if TrimSpace(op.auditReason) == "" then Some(AuditReasonRequired)
    else if jobID !in t.jobs then Some(JobNotFound)
    else if !LeaseExpired(t.jobs[jobID], now) then Some(JobLeaseNotExpired)
    else None
  }

  function AfterOperator(t: JobTable, jobID: string, op: OperatorAction, now: Time): JobTable {
    if OperatorError(t, jobID, op, now).None?
    then t.(jobs := t.jobs[jobID := Operated(t.jobs[jobID], op, now)]) else t
  }

  // ----- Creation -----

  function Normalised(j: SyncJob, id: string, now: Time): SyncJob {
    j.(id := id,
       state := if j.state.Unset? then Pending else j.state,
       maxAttempts := if j.maxAttempts == 0 then DEFAULT_MAX_ATTEMPTS else j.maxAttempts,
       availableAt := if j.availableAt == ZERO_TIME then now else j.availableAt,
       createdAt := if j.createdAt == ZERO_TIME then now else j.createdAt,
       updatedAt := now)
  }

  function CreateError(t: JobTable, j: SyncJob): Option<Error> {
    if j.id != "" then Some(JobIDProvided)
    else if j.origin.Outbox? && j.deltaID.None? then Some(OutboxJobNeedsDelta)
    else if j.origin.Outbox? && j.deltaID.value in t.jobByDelta then Some(DeltaAlreadyMapped)
    else None
  }

  ghost function Created(t: JobTable, j: SyncJob, now: Time): Result<SyncJob> {
    if CreateError(t, j).Some? then Err(CreateError(t, j).value)
    else Ok(Normalised(j, Name(JOB, FirstFree(JOB, t.nextID, t.jobs.Keys)), now))
  }

  ghost function AfterCreate(t: JobTable, j: SyncJob, now: Time): JobTable {
    match Created(t, j, now)
    case Err(_) => t
    case Ok(job) =>
      JobTable(FirstFree(JOB, t.nextID, t.jobs.Keys), t.jobs[job.id := job],
               if j.origin.Outbox? && j.deltaID.Some? then t.jobByDelta[j.deltaID.value := job.id] else t.jobByDelta)
  }

  // ----- What every reachable job table satisfies -----

  /** `jobByDelta` is exactly the correspondence between outbox jobs and their deltas. */
  ghost predicate Mapped(t: JobTable) {
    && (forall d | d in t.jobByDelta ::
          && t.jobByDelta[d] in t.jobs
          && t.jobs[t.jobByDelta[d]].origin.Outbox?
          && t.jobs[t.jobByDelta[d]].deltaID == Some(d))
    && (forall id | id in t.jobs && t.jobs[id].origin.Outbox? ::
          && t.jobs[id].deltaID.Some?
          && t.jobs[id].deltaID.value in t.jobByDelta
          && t.jobByDelta[t.jobs[id].deltaID.value] == id)
  }

  ghost predicate JobsValid(t: JobTable) {
    Keyed(t.jobs) && FreshAbove(JOB, t.nextID, t.jobs.Keys) && Mapped(t)
  }

  /** The fields that no transition of an existing job ever changes. */
  predicate SameIdentity(a: SyncJob, b: SyncJob) {
    && a.id == b.id && a.syncID == b.syncID && a.deltaID == b.deltaID && a.origin == b.origin
    && a.projectionType == b.projectionType && a.projectionKey == b.projectionKey
    && a.projectionKeyHash == b.projectionKeyHash
    && a.maxAttempts == b.maxAttempts && a.createdAt == b.createdAt
  }

  ghost predicate SameJobs(before: map<string, SyncJob>, after: map<string, SyncJob>) {
    && after.Keys == before.Keys
    && forall id | id in before :: SameIdentity(before[id], after[id])
  }

  lemma MappedIsPreserved(t: JobTable, t': JobTable)
    requires JobsValid(t)
    requires t'.nextID == t.nextID && t'.jobByDelta == t.jobByDelta && SameJobs(t.jobs, t'.jobs)
    ensures JobsValid(t')
  {
  }

  lemma {:induction false} LeaseAllKeepsIdentity(jobs: map<string, SyncJob>, q: seq<Rank>, workerID: string, now: Time,
                                                 until: Time)
    requires AllIn(q, jobs)
    ensures SameJobs(jobs, LeaseAll(jobs, q, workerID, now, until))
  {
    if q != [] {
      LeaseAllKeepsIdentity(Lease(jobs, q[0].id, workerID, now, until), q[1..], workerID, now, until);
    }
  }

  lemma BatchKeeps(t: JobTable, syncID: string, workerID: string, limit: int, now: Time, until: Time)
    requires JobsValid(t) && limit >= 0
    ensures JobsValid(AfterBatch(t, syncID, workerID, limit, now, until))
  {
    hide Before;
    LeaseAllKeepsIdentity(t.jobs, Take(ClaimQueue(t.jobs, syncID, now), limit), workerID, now, until);
    MappedIsPreserved(t, AfterBatch(t, syncID, workerID, limit, now, until));
  }

  lemma UpdateKeepsIdentity(j: SyncJob, u: LeaseUpdate, now: Time)
    ensures SameIdentity(j, Updated(j, u, now))
    ensures j.attemptCount <= Updated(j, u, now).attemptCount <= j.attemptCount + 1
  {
  }

  lemma OperatedKeepsIdentity(j: SyncJob, op: OperatorAction, now: Time)
    ensures SameIdentity(j, Operated(j, op, now)) && Operated(j, op, now).attemptCount == j.attemptCount
  {
    hide TrimSpace; hide Blank;
  }

  lemma UpdateKeeps(t: JobTable, jobID: string, workerID: string, u: LeaseUpdate, now: Time)
    requires JobsValid(t)
    ensures JobsValid(AfterUpdate(t, jobID, workerID, u, now))
  {
    hide JobsValid; hide LeaseOwned; hide Updated;
    if jobID in t.jobs { UpdateKeepsIdentity(t.jobs[jobID], u, now); }
    MappedIsPreserved(t, AfterUpdate(t, jobID, workerID, u, now));
  }

  lemma OperatorKeeps(t: JobTable, jobID: string, op: OperatorAction, now: Time)
    requires JobsValid(t)
    ensures JobsValid(AfterOperator(t, jobID, op, now))
  {
    MappedIsPreserved(t, AfterOperator(t, jobID, op, now));
  }

  /** Adding a new outbox job together with its mapping. */
  lemma AddOutboxKeeps(t: JobTable, job: SyncJob, n: nat)
    requires JobsValid(t) && n > t.nextID && job.id == Name(JOB, n) && job.id !in t.jobs
    requires job.origin.Outbox? && job.deltaID.Some? && job.deltaID.value !in t.jobByDelta
    ensures JobsValid(JobTable(n, t.jobs[job.id := job], t.jobByDelta[job.deltaID.value := job.id]))
  {
    AddingKeepsFresh(JOB, t.nextID, n, t.jobs.Keys);
    assert t.jobs[job.id := job].Keys == t.jobs.Keys + {job.id};
  }

  lemma AddDirectKeeps(t: JobTable, job: SyncJob, n: nat)
    requires JobsValid(t) && n > t.nextID && job.id == Name(JOB, n) && job.id !in t.jobs && !job.origin.Outbox?
    ensures JobsValid(JobTable(n, t.jobs[job.id := job], t.jobByDelta))
  {
    hide FreshAbove;
    AddingKeepsFresh(JOB, t.nextID, n, t.jobs.Keys);
    assert t.jobs[job.id := job].Keys == t.jobs.Keys + {job.id};
  }

  lemma ValidIsFresh(t: JobTable)
    requires JobsValid(t)
    ensures FreshAbove(JOB, t.nextID, t.jobs.Keys)
  {
  }

  /** With a fresh counter the probing loop stops at once: a new job gets number nextID + 1. */
  lemma CreateKeeps(t: JobTable, j: SyncJob, now: Time)
    requires JobsValid(t)
    ensures JobsValid(AfterCreate(t, j, now))
    ensures Created(t, j, now).Ok? ==>
              && AfterCreate(t, j, now).nextID == t.nextID + 1
              && Created(t, j, now).value.id == Name(JOB, t.nextID + 1)
              && Name(JOB, t.nextID + 1) !in t.jobs
  {
    hide JobsValid;
    if Created(t, j, now).Ok? {
      var job := Created(t, j, now).value;
      assert FreshAbove(JOB, t.nextID, t.jobs.Keys) by { ValidIsFresh(t); }
      NextIsFree(JOB, t.nextID, t.jobs.Keys);
      if j.origin.Outbox? { AddOutboxKeeps(t, job, t.nextID + 1); } else { AddDirectKeeps(t, job, t.nextID + 1); }
    }
  }

  // ----- Lease queries -----

  datatype LeaseFilter = Active | Expired | NearExpiry(threshold: Time)

  predicate Matches(j: SyncJob, f: LeaseFilter, now: Time) {
    match f
    case Active => j.lockedUntil.Some? && now < j.lockedUntil.value
    case Expired => LeaseLapsed(j, now)
    case NearExpiry(threshold) => j.lockedUntil.Some? && now < j.lockedUntil.value <= threshold
  }

  predicate Selected(j: SyncJob, syncID: string, f: LeaseFilter, now: Time) {
    j.state.Processing? && (syncID == "" || j.syncID == syncID) && Matches(j, f, now)
  }

  function LeaseRank(j: SyncJob): Rank {
    Rank(j.lockedUntil, j.updatedAt, j.id)
  }

  function LeaseRanks(jobs: map<string, SyncJob>, syncID: string, f: LeaseFilter, now: Time): set<Rank> {
    set id | id in jobs && Selected(jobs[id], syncID, f, now) :: LeaseRank(jobs[id])
  }

  /** The listing `selectProcessingLeasesLocked` works from, before its limit. */
  ghost function Leases(jobs: map<string, SyncJob>, syncID: string, f: LeaseFilter, now: Time): seq<Rank> {
    Sorted(LeaseRanks(jobs, syncID, f, now))
  }

  lemma LeasesList(jobs: map<string, SyncJob>, syncID: string, f: LeaseFilter, now: Time)
    requires Keyed(jobs)
    ensures var q := Leases(jobs, syncID, f, now);
      forall i | 0 <= i < |q| ::
        q[i].id in jobs && Selected(jobs[q[i].id], syncID, f, now) && LeaseRank(jobs[q[i].id]) == q[i]
  {
    hide Before; hide Selected;
    var q := Leases(jobs, syncID, f, now);
    forall i | 0 <= i < |q|
      ensures q[i].id in jobs && Selected(jobs[q[i].id], syncID, f, now) && LeaseRank(jobs[q[i].id]) == q[i]
    {
      assert q[i] in Elements(q);
    }
  }
}
