/** The in-memory job store, updated in place. Every method is proved against the table functions. */
module JobStore {
  import opened Types
  import opened Ranks
  import opened Names
  import opened Jobs
  import opened JobFields

  /** Collects the claimable jobs in whatever order the map yields them, then sorts. */
  method ClaimableJobIDs(jobs: map<string, SyncJob>, now: Time, syncID: string) returns (ids: seq<Rank>)
    requires Keyed(jobs)
    ensures ids == ClaimQueue(jobs, syncID, now)
    ensures InDueOrder(jobs, ids, syncID, now)
  {
    hide Before; hide Claimable; hide InDueOrder;
    ids := [];
    var rest := jobs.Keys;
    while rest != {}
      invariant rest <= jobs.Keys
      invariant Elements(ids)
               == set id | id in jobs.Keys - rest && Claimable(jobs[id], now, syncID) :: ClaimRank(jobs[id])
      invariant forall i | 0 <= i < |ids| :: ids[i].id in jobs.Keys - rest
      invariant forall i, j | 0 <= i < j < |ids| :: ids[i] != ids[j]
      decreases rest
    {
      var id :| id in rest;
      ghost var before := ids;
      ghost var done := jobs.Keys - rest;
      if Claimable(jobs[id], now, syncID) {
        ids := ids + [ClaimRank(jobs[id])];
        AppendElements(before, ClaimRank(jobs[id]));
      }
      rest := rest - {id};
      assert jobs.Keys - rest == done + {id};
    }
    assert jobs.Keys - rest == jobs.Keys;
    assert Elements(ids) == ClaimRanks(jobs, syncID, now);
    ids := Sort(ids);
    QueueByFields(jobs, syncID, now);
  }

  class JobMemoryStore {
    var nextID: nat
    var jobs: map<string, SyncJob>
    var jobByDelta: map<string, string>

    ghost function Table(): JobTable
      reads this
    {
      JobTable(nextID, jobs, jobByDelta)
    }

    ghost predicate Valid()
      reads this
    {
      JobsValid(Table())
    }

    constructor ()
      ensures Valid() && Table() == JobTable(0, map[], map[])
    {
      nextID, jobs, jobByDelta := 0, map[], map[];
    }

    method Create(cancelled: bool, job: SyncJob, now: Time) returns (r: Result<SyncJob>)
      requires Valid()
      modifies this
      ensures Valid()
      ensures cancelled ==> r == Err(ContextDone) && Table() == old(Table())
      ensures !cancelled ==>
                && Table() == AfterCreate(old(Table()), job, now)
                && r == Created(old(Table()), job, now)
      ensures !cancelled ==>
                if job.id != "" then r == Err(JobIDProvided)
                else if job.origin == Outbox && job.deltaID == None then r == Err(OutboxJobNeedsDelta)
                else if job.origin == Outbox && job.deltaID.value in old(jobByDelta) then r == Err(DeltaAlreadyMapped)
                else r == Ok(job.(
                       id := "job-" + Decimal(old(nextID) + 1),
                       state := if job.state == Unset then Pending else job.state,
                       maxAttempts := if job.maxAttempts == 0 then 5 else job.maxAttempts,
                       availableAt := if job.availableAt == ZERO_TIME then now else job.availableAt,
                       createdAt := if job.createdAt == ZERO_TIME then now else job.createdAt,
                       updatedAt := now))
      ensures r.Err? ==> Table() == old(Table())
      ensures r.Ok? ==>
                && r.value.id !in old(jobs) && jobs == old(jobs)[r.value.id := r.value] && nextID == old(nextID) + 1
                && jobByDelta == if job.origin == Outbox then old(jobByDelta)[job.deltaID.value := r.value.id]
                                 else old(jobByDelta)
    {
      if cancelled { return Err(ContextDone); }
      CreateKeeps(Table(), job, now);
      if job.id != "" { return Err(JobIDProvided); }
      if job.origin.Outbox? && job.deltaID.None? { return Err(OutboxJobNeedsDelta); }
      if job.origin.Outbox? && job.deltaID.value in jobByDelta { return Err(DeltaAlreadyMapped); }
      nextID := Probe(JOB, nextID, jobs.Keys);
      var created := Normalised(job, Name(JOB, nextID), now);
      jobs := jobs[created.id := created];
      if job.origin.Outbox? {
        jobByDelta := jobByDelta[job.deltaID.value := created.id];
      }
      return Ok(created);
    }

    method ClaimNext(cancelled: bool, syncID: string, workerID: string, lockFor: int, now: Time)
      returns (r: Result<Option<SyncJob>>)
      requires Valid()
      modifies this
      ensures Valid()
      ensures cancelled || lockFor <= 0 ==>
                Table() == old(Table()) && r == Err(if cancelled then ContextDone else InvalidLockFor)
      ensures !cancelled && lockFor > 0 ==>
                && Table() == AfterClaim(old(Table()), syncID, workerID, now, now + lockFor)
                && r == Ok(NextJob(old(Table()), syncID, workerID, now, now + lockFor))
      ensures !cancelled && lockFor > 0 ==>
                && r.Ok? && FirstIsLeased(old(jobs), jobs, r.value, syncID, workerID, now, now + lockFor)
                && nextID == old(nextID) && jobByDelta == old(jobByDelta)
    {
      hide FirstIsLeased; hide InDueOrder;
      if cancelled { return Err(ContextDone); }
      if lockFor <= 0 { return Err(InvalidLockFor); }
      ClaimByFields(Table(), syncID, workerID, now, now + lockFor);
      var ids := ClaimableJobIDs(jobs, now, syncID);
      if |ids| == 0 { return Ok(None); }
      var job := Claimed(jobs[ids[0].id], workerID, now, now + lockFor);
      ghost var before := Table();
      jobs := jobs[ids[0].id := job];
      MappedIsPreserved(before, Table());
      return Ok(Some(job));
    }

    method ClaimNextBatch(cancelled: bool, syncID: string, workerID: string, limit: int, lockFor: int, now: Time)
      returns (r: Result<seq<SyncJob>>)
      requires Valid()
      modifies this
      ensures Valid()
      ensures cancelled || lockFor <= 0 ==>
                Table() == old(Table()) && r == Err(if cancelled then ContextDone else InvalidLockFor)
      ensures !cancelled && lockFor > 0 && limit <= 0 ==> Table() == old(Table()) && r == Ok([])
      ensures !cancelled && lockFor > 0 && limit > 0 ==>
                && Table() == AfterBatch(old(Table()), syncID, workerID, limit, now, now + lockFor)
                && r == Ok(BatchOf(old(Table()), syncID, workerID, limit, now, now + lockFor))
      ensures !cancelled && lockFor > 0 && limit > 0 ==>
                && r.Ok? && BatchIsLeased(old(jobs), jobs, r.value, syncID, workerID, limit, now, now + lockFor)
                && nextID == old(nextID) && jobByDelta == old(jobByDelta)
    {
      hide BatchIsLeased; hide InDueOrder; hide LeaseAll; hide Copies; hide ClaimQueue; hide Keyed; hide FreshAbove;
      hide Mapped; hide Ascending; hide ClaimRank;
      if cancelled { return Err(ContextDone); }
      if lockFor <= 0 { return Err(InvalidLockFor); }
      if limit <= 0 { return Ok([]); }
      var until := now + lockFor;
      BatchKeeps(Table(), syncID, workerID, limit, now, until);
      BatchByFields(Table(), syncID, workerID, limit, now, until);
      var ids := ClaimableJobIDs(jobs, now, syncID);
      var claimed := LeaseEach(Take(ids, limit), workerID, now, until);
      return Ok(claimed);
    }

    /** The walk of a batch claim: each listed job is leased and copied. */
    method LeaseEach(ids: seq<Rank>, workerID: string, now: Time, until: Time) returns (claimed: seq<SyncJob>)
      requires AllIn(ids, jobs)
      modifies this`jobs
      ensures jobs == LeaseAll(old(jobs), ids, workerID, now, until)
      ensures claimed == Copies(old(jobs), ids, workerID, now, until)
    {
      hide Claimed;
      claimed := [];
      ghost var before := jobs;
      for i := 0 to |ids|
        invariant jobs.Keys == before.Keys
        invariant LeaseAll(jobs, ids[i..], workerID, now, until) == LeaseAll(before, ids, workerID, now, until)
        invariant claimed + Copies(jobs, ids[i..], workerID, now, until) == Copies(before, ids, workerID, now, until)
      {
        var job := Claimed(jobs[ids[i].id], workerID, now, until);
        assert ids[i..][1..] == ids[i + 1..];
        jobs := jobs[ids[i].id := job];
        claimed := claimed + [job];
      }
      assert ids[|ids|..] == [] && claimed + [] == claimed;
    }

    /** `updateOwned` with the closure `u`, and the lock duration check `RenewLease` puts before it. */
    method UpdateOwned(cancelled: bool, jobID: string, workerID: string, u: LeaseUpdate, now: Time)
      returns (err: Option<Error>)
      requires Valid()
      modifies this`jobs
      ensures Valid()
      ensures cancelled ==> Table() == old(Table()) && err == Some(ContextDone)
      ensures !cancelled ==>
                && Table() == AfterUpdate(old(Table()), jobID, workerID, u, now)
                && err == UpdateError(old(Table()), jobID, workerID, u, now)
      ensures !cancelled ==>
                err == if u.RenewLease? && u.lockFor <= 0 then Some(InvalidLockFor)
                       else if jobID !in old(jobs) then Some(JobNotFound)
                       else if !Owns(old(jobs)[jobID], workerID, now) then Some(JobLeaseNotOwned)
                       else None
      ensures err.Some? ==> jobs == old(jobs)
    {
      hide JobsValid; hide Updated;
      if cancelled { return Some(ContextDone); }
      if u.RenewLease? && u.lockFor <= 0 { return Some(InvalidLockFor); }
      if jobID !in jobs { return Some(JobNotFound); }
      var job := jobs[jobID];
      if !LeaseOwned(job, now, workerID) { return Some(JobLeaseNotOwned); }
      UpdateKeeps(Table(), jobID, workerID, u, now);
      jobs := jobs[jobID := Updated(job, u, now)];
      return None;
    }

    /** A lease is renewed in place: only its end and the update time move. */
    method RenewLease(cancelled: bool, jobID: string, workerID: string, lockFor: int, now: Time)
      returns (err: Option<Error>)
      requires Valid()
      modifies this`jobs
      ensures Valid()
      ensures err.None? <==>
                !cancelled && lockFor > 0 && jobID in old(jobs) && Owns(old(jobs)[jobID], workerID, now)
      ensures err.Some? ==> jobs == old(jobs)
      ensures err.None? ==>
                jobs == old(jobs)[jobID := old(jobs)[jobID].(lockedUntil := Some(now + lockFor), updatedAt := now)]
    {
      err := UpdateOwned(cancelled, jobID, workerID, Jobs.RenewLease(lockFor), now);
    }

    method MarkSynced(cancelled: bool, jobID: string, workerID: string, ghostDetected: bool, now: Time)
      returns (err: Option<Error>)
      requires Valid()
      modifies this`jobs
      ensures Valid()
      ensures err.None? <==> !cancelled && jobID in old(jobs) && Owns(old(jobs)[jobID], workerID, now)
      ensures err.Some? ==> jobs == old(jobs)
      ensures err.None? ==>
                jobs == old(jobs)[jobID := old(jobs)[jobID].(state := Synced, ghostDetected := ghostDetected,
                  syncedAt := Some(now), lockedBy := None, lockedUntil := None, updatedAt := now)]
    {
      err := UpdateOwned(cancelled, jobID, workerID, Jobs.MarkSynced(ghostDetected), now);
    }

    method MarkRetrying(cancelled: bool, jobID: string, workerID: string, error: string, nextRunAt: Time, now: Time)
      returns (err: Option<Error>)
      requires Valid()
      modifies this`jobs
      ensures Valid()
      ensures err.None? <==> !cancelled && jobID in old(jobs) && Owns(old(jobs)[jobID], workerID, now)
      ensures err.Some? ==> jobs == old(jobs)
      ensures err.None? ==>
                jobs == old(jobs)[jobID := old(jobs)[jobID].(state := Retrying,
                  attemptCount := old(jobs)[jobID].attemptCount + 1, lastError := Some(error),
                  availableAt := nextRunAt, lockedBy := None, lockedUntil := None, updatedAt := now)]
    {
      err := UpdateOwned(cancelled, jobID, workerID, Jobs.MarkRetrying(error, nextRunAt), now);
    }

    method RequeueClaimed(cancelled: bool, jobID: string, workerID: string, reason: string, nextRunAt: Time, now: Time)
      returns (err: Option<Error>)
      requires Valid()
      modifies this`jobs
      ensures Valid()
      ensures err.None? <==> !cancelled && jobID in old(jobs) && Owns(old(jobs)[jobID], workerID, now)
      ensures err.Some? ==> jobs == old(jobs)
      ensures err.None? ==>
                jobs == old(jobs)[jobID := old(jobs)[jobID].(state := Retrying, lastError := Some(reason),
                  availableAt := nextRunAt, lockedBy := None, lockedUntil := None, updatedAt := now)]
    {
      err := UpdateOwned(cancelled, jobID, workerID, Jobs.RequeueClaimed(reason, nextRunAt), now);
    }

    method MarkDead(cancelled: bool, jobID: string, workerID: string, error: string, now: Time)
      returns (err: Option<Error>)
      requires Valid()
      modifies this`jobs
      ensures Valid()
      ensures err.None? <==> !cancelled && jobID in old(jobs) && Owns(old(jobs)[jobID], workerID, now)
      ensures err.Some? ==> jobs == old(jobs)
      ensures err.None? ==>
                jobs == old(jobs)[jobID := old(jobs)[jobID].(state := Dead,
                  attemptCount := old(jobs)[jobID].attemptCount + 1, lastError := Some(error),
                  deadAt := Some(now), lockedBy := None, lockedUntil := None, updatedAt := now)]
    {
      err := UpdateOwned(cancelled, jobID, workerID, Jobs.MarkDead(error), now);
    }

    /** The two operator actions, which act only on a processing job whose lease has lapsed. */
    method OperateOnExpired(cancelled: bool, jobID: string, op: OperatorAction, now: Time)
      returns (err: Option<Error>)
      requires Valid()
      modifies this`jobs
      ensures Valid()
      ensures cancelled ==> Table() == old(Table()) && err == Some(ContextDone)
      ensures !cancelled ==>
                && Table() == AfterOperator(old(Table()), jobID, op, now)
                && err == OperatorError(old(Table()), jobID, op, now)
      ensures !cancelled ==>
                err == if Blank(op.auditReason) then Some(AuditReasonRequired)
                       else if jobID !in old(jobs) then Some(JobNotFound)
                       else if !Lapsed(old(jobs)[jobID], now) then Some(JobLeaseNotExpired)
                       else None
      ensures err.Some? ==> jobs == old(jobs)
      ensures err.None? && op.ForceRelease? ==>
                jobs == old(jobs)[jobID := old(jobs)[jobID].(lockedBy := None, lockedUntil := None,
                  lastError := Some("operator_force_release: " + TrimSpace(op.auditReason)), updatedAt := now)]
      ensures err.None? && op.RequeueExpired? ==>
                jobs == old(jobs)[jobID := old(jobs)[jobID].(state := Retrying, availableAt := op.nextRunAt,
                  lockedBy := None, lockedUntil := None,
                  lastError := Some("operator_requeue: " + TrimSpace(op.auditReason)), updatedAt := now)]
    {
      if cancelled { return Some(ContextDone); }
      if TrimSpace(op.auditReason) == "" { return Some(AuditReasonRequired); }
      if jobID !in jobs { return Some(JobNotFound); }
      var job := jobs[jobID];
      if !LeaseExpired(job, now) { return Some(JobLeaseNotExpired); }
      ghost var before := Table();
      jobs := jobs[jobID := Operated(job, op, now)];
      MappedIsPreserved(before, Table());
      return None;
    }

    method ProcessingLeaseIDs(syncID: string, f: LeaseFilter, now: Time) returns (ids: seq<Rank>)
      requires Valid()
      ensures ids == Leases(jobs, syncID, f, now)
    {
      hide Before; hide Selected;
      ids := [];
      var rest := jobs.Keys;
      while rest != {}
        invariant rest <= jobs.Keys
        invariant Elements(ids)
               == set id | id in jobs.Keys - rest && Selected(jobs[id], syncID, f, now) :: LeaseRank(jobs[id])
        invariant forall i | 0 <= i < |ids| :: ids[i].id in jobs.Keys - rest
        invariant forall i, j | 0 <= i < j < |ids| :: ids[i] != ids[j]
        decreases rest
      {
        var id :| id in rest;
        ghost var before := ids;
        ghost var done := jobs.Keys - rest;
        if Selected(jobs[id], syncID, f, now) {
          ids := ids + [LeaseRank(jobs[id])];
          AppendElements(before, LeaseRank(jobs[id]));
        }
        rest := rest - {id};
        assert jobs.Keys - rest == done + {id};
      }
      assert jobs.Keys - rest == jobs.Keys;
      assert Elements(ids) == LeaseRanks(jobs, syncID, f, now);
      ids := Sort(ids);
    }

    /** `selectProcessingLeasesLocked`: filter, sort, cut, copy. */
    method SelectProcessingLeases(syncID: string, limit: int, f: LeaseFilter, now: Time) returns (leases: seq<SyncJob>)
      requires Valid() && limit > 0
      ensures var q := Take(Leases(jobs, syncID, f, now), limit);
        && |leases| == |q|
        && forall i | 0 <= i < |q| :: q[i].id in jobs && leases[i] == jobs[q[i].id]
    {
      hide Before; hide Selected; hide LeaseRanks;
      var ids := ProcessingLeaseIDs(syncID, f, now);
      LeasesList(jobs, syncID, f, now);
      ids := Take(ids, limit);
      leases := [];
      for i := 0 to |ids|
        invariant |leases| == i
        invariant forall k | 0 <= k < i :: ids[k].id in jobs && leases[k] == jobs[ids[k].id]
      {
        leases := leases + [jobs[ids[i].id]];
      }
    }

    method ListActiveLeases(cancelled: bool, syncID: string, limit: int, now: Time) returns (r: Result<seq<SyncJob>>)
      requires Valid()
      ensures cancelled ==> r == Err(ContextDone)
      ensures !cancelled ==> r.Ok? && Listing(r.value, syncID, limit, Active, now)
      ensures !cancelled ==> r.Ok? && FirstLeases(jobs, ActiveIDs(jobs, syncID, now), limit, r.value)
    {
      if cancelled { return Err(ContextDone); }
      if limit <= 0 { return Ok([]); }
      var leases := SelectProcessingLeases(syncID, limit, Active, now);
      LeasesByFields(jobs, syncID, Active, now, limit, leases, ActiveIDs(jobs, syncID, now));
      return Ok(leases);
    }

    method ListExpiredProcessingLeases(cancelled: bool, syncID: string, limit: int, now: Time)
      returns (r: Result<seq<SyncJob>>)
      requires Valid()
      ensures cancelled ==> r == Err(ContextDone)
      ensures !cancelled ==> r.Ok? && Listing(r.value, syncID, limit, Expired, now)
      ensures !cancelled ==> r.Ok? && FirstLeases(jobs, ExpiredIDs(jobs, syncID, now), limit, r.value)
    {
      if cancelled { return Err(ContextDone); }
      if limit <= 0 { return Ok([]); }
      var leases := SelectProcessingLeases(syncID, limit, Expired, now);
      LeasesByFields(jobs, syncID, Expired, now, limit, leases, ExpiredIDs(jobs, syncID, now));
      return Ok(leases);
    }

    method ListNearExpiryLeases(cancelled: bool, syncID: string, within: int, limit: int, now: Time)
      returns (r: Result<seq<SyncJob>>)
      requires Valid()
      ensures cancelled ==> r == Err(ContextDone)
      ensures !cancelled && within < 0 ==> r == Err(InvalidLeaseWindow)
      ensures !cancelled && within >= 0 ==> r.Ok? && Listing(r.value, syncID, limit, NearExpiry(now + within), now)
      ensures !cancelled && within >= 0 ==>
                r.Ok? && FirstLeases(jobs, NearExpiryIDs(jobs, syncID, now, within), limit, r.value)
    {
      if cancelled { return Err(ContextDone); }
      if within < 0 { return Err(InvalidLeaseWindow); }
      if limit <= 0 { return Ok([]); }
      var leases := SelectProcessingLeases(syncID, limit, NearExpiry(now + within), now);
      LeasesByFields(jobs, syncID, NearExpiry(now + within), now, limit, leases,
                     NearExpiryIDs(jobs, syncID, now, within));
      return Ok(leases);
    }

    /** Copies of the first `limit` leases of the listing, in its order. */
    ghost predicate Listing(leases: seq<SyncJob>, syncID: string, limit: int, f: LeaseFilter, now: Time)
      reads this
    {
      var q := Take(Leases(jobs, syncID, f, now), if limit < 0 then 0 else limit);
      && |leases| == |q|
      && forall i | 0 <= i < |q| :: q[i].id in jobs && leases[i] == jobs[q[i].id]
    }
  }
}
