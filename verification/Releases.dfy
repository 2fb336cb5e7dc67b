/** Giving claimed jobs back: the worker's `requeueClaimedJobs` and the SQLite store's
    `requeueClaimedBatch` call `RequeueClaimed` for each job in turn and ignore the answers. */
module Releases {
  import opened Types
  import opened Jobs

  /** One `RequeueClaimed`: whether it fails before it reaches the store, and the store's clock. */
  datatype Release = Release(failed: bool, at: Time)

  predicate ReleaseWorks(j: SyncJob, workerID: string, r: Release) {
    !r.failed && LeaseOwned(j, r.at, workerID)
  }

  function ReleasedJob(j: SyncJob, workerID: string, reason: string, nextRunAt: Time, r: Release): SyncJob {
    if ReleaseWorks(j, workerID, r) then Updated(j, RequeueClaimed(reason, nextRunAt), r.at) else j
  }

  ghost predicate KnownJobs(jobs: map<string, SyncJob>, batch: seq<SyncJob>) {
    forall k | 0 <= k < |batch| :: batch[k].id in jobs
  }

  ghost predicate Batch(jobs: map<string, SyncJob>, batch: seq<SyncJob>) {
    KnownJobs(jobs, batch) && forall i, k | 0 <= i < k < |batch| :: batch[i].id != batch[k].id
  }

  ghost function ReleaseAll(jobs: map<string, SyncJob>, workerID: string, batch: seq<SyncJob>, reason: string,
                            nextRunAt: Time, releases: seq<Release>): (after: map<string, SyncJob>)
    requires KnownJobs(jobs, batch) && |batch| <= |releases|
    ensures after.Keys == jobs.Keys
    decreases |batch|
  {
    if batch == [] then jobs
    else
      var id := batch[0].id;
      ReleaseAll(jobs[id := ReleasedJob(jobs[id], workerID, reason, nextRunAt, releases[0])], workerID, batch[1..],
                 reason, nextRunAt, releases[1..])
  }

  /** Every job of the batch was given back, as far as its lease and the call allowed; no other was touched. */
  ghost predicate AllReleased(before: map<string, SyncJob>, after: map<string, SyncJob>, workerID: string,
                              batch: seq<SyncJob>, reason: string, nextRunAt: Time, releases: seq<Release>) {
    && Batch(before, batch) && |batch| <= |releases| && after.Keys == before.Keys
    && (forall k | 0 <= k < |batch| ::
          after[batch[k].id] == ReleasedJob(before[batch[k].id], workerID, reason, nextRunAt, releases[k]))
    && (forall id | id in before && !InBatch(batch, id) :: after[id] == before[id])
  }

  lemma {:induction false} OthersAreKept(jobs: map<string, SyncJob>, workerID: string, batch: seq<SyncJob>,
                                         reason: string, nextRunAt: Time, releases: seq<Release>, id: string)
    requires KnownJobs(jobs, batch) && |batch| <= |releases| && id in jobs && !InBatch(batch, id)
    ensures ReleaseAll(jobs, workerID, batch, reason, nextRunAt, releases)[id] == jobs[id]
    decreases |batch|
  {
    hide ReleasedJob;
    if batch != [] {
      assert batch[0].id != id;
      forall k | 0 <= k < |batch[1..]| ensures batch[1..][k].id != id { assert batch[1..][k] == batch[k + 1]; }
      var head := ReleasedJob(jobs[batch[0].id], workerID, reason, nextRunAt, releases[0]);
      OthersAreKept(jobs[batch[0].id := head], workerID, batch[1..], reason, nextRunAt, releases[1..], id);
    }
  }

  /** For a batch without repetitions the loop releases every job by itself. */
  lemma {:induction false} ReleasesAreIndependent(jobs: map<string, SyncJob>, workerID: string, batch: seq<SyncJob>,
                                                  reason: string, nextRunAt: Time, releases: seq<Release>)
    requires Batch(jobs, batch) && |batch| <= |releases|
    ensures AllReleased(jobs, ReleaseAll(jobs, workerID, batch, reason, nextRunAt, releases), workerID, batch, reason,
                        nextRunAt, releases)
  {
    hide ReleasedJob;
    var after := ReleaseAll(jobs, workerID, batch, reason, nextRunAt, releases);
    forall k | 0 <= k < |batch|
      ensures after[batch[k].id] == ReleasedJob(jobs[batch[k].id], workerID, reason, nextRunAt, releases[k])
    {
      ReleasedInTurn(jobs, workerID, batch, reason, nextRunAt, releases, k);
    }
    forall id | id in jobs && !InBatch(batch, id) ensures after[id] == jobs[id] {
      OthersAreKept(jobs, workerID, batch, reason, nextRunAt, releases, id);
    }
  }

  lemma {:induction false} ReleasedInTurn(jobs: map<string, SyncJob>, workerID: string, batch: seq<SyncJob>,
                                          reason: string, nextRunAt: Time, releases: seq<Release>, k: nat)
    requires Batch(jobs, batch) && k < |batch| <= |releases|
    ensures ReleaseAll(jobs, workerID, batch, reason, nextRunAt, releases)[batch[k].id]
         == ReleasedJob(jobs[batch[k].id], workerID, reason, nextRunAt, releases[k])
    decreases |batch|
  {
    hide ReleasedJob;
    var next := jobs[batch[0].id := ReleasedJob(jobs[batch[0].id], workerID, reason, nextRunAt, releases[0])];
    if k == 0 {
      forall i | 0 <= i < |batch[1..]| ensures batch[1..][i].id != batch[0].id { assert batch[1..][i] == batch[i + 1]; }
      OthersAreKept(next, workerID, batch[1..], reason, nextRunAt, releases[1..], batch[0].id);
    } else {
      ReleasedInTurn(next, workerID, batch[1..], reason, nextRunAt, releases[1..], k - 1);
    }
  }

  /** A job that is not processing is not touched by any release. */
  lemma {:induction false} IdleIsKept(jobs: map<string, SyncJob>, workerID: string, batch: seq<SyncJob>, reason: string,
                                      nextRunAt: Time, releases: seq<Release>, id: string)
    requires KnownJobs(jobs, batch) && |batch| <= |releases| && id in jobs && !jobs[id].state.Processing?
    ensures ReleaseAll(jobs, workerID, batch, reason, nextRunAt, releases)[id] == jobs[id]
    decreases |batch|
  {
    if batch != [] {
      var head := ReleasedJob(jobs[batch[0].id], workerID, reason, nextRunAt, releases[0]);
      IdleIsKept(jobs[batch[0].id := head], workerID, batch[1..], reason, nextRunAt, releases[1..], id);
    }
  }

  predicate GivenBack(j: SyncJob, j': SyncJob) {
    && SameIdentity(j, j') && j'.attemptCount == j.attemptCount
    && j'.state.Retrying? && j'.lockedBy.None? && j'.lockedUntil.None?
  }

  /** Even in a batch with repetitions, a job whose lease one of its releases finds alive is given back: its
      lock is gone and no attempt is recorded. */
  lemma {:induction false} LiveLeasesAreGivenBack(jobs: map<string, SyncJob>, workerID: string, batch: seq<SyncJob>,
                                                  reason: string, nextRunAt: Time, releases: seq<Release>, k: nat)
    requires KnownJobs(jobs, batch) && k < |batch| <= |releases|
    requires ReleaseWorks(jobs[batch[k].id], workerID, releases[k])
    ensures GivenBack(jobs[batch[k].id], ReleaseAll(jobs, workerID, batch, reason, nextRunAt, releases)[batch[k].id])
    decreases |batch|
  {
    var id := batch[k].id;
    var next := jobs[batch[0].id := ReleasedJob(jobs[batch[0].id], workerID, reason, nextRunAt, releases[0])];
    if batch[0].id == id && ReleaseWorks(jobs[id], workerID, releases[0]) {
      assert GivenBack(jobs[id], next[id]);
      IdleIsKept(next, workerID, batch[1..], reason, nextRunAt, releases[1..], id);
    } else {
      assert next[id] == jobs[id];
      LiveLeasesAreGivenBack(next, workerID, batch[1..], reason, nextRunAt, releases[1..], k - 1);
    }
  }
}
