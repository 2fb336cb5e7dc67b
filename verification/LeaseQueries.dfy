/** The operational lease queries, and the operator actions that go with them. */
module LeaseQueries {
  import opened Types
  import opened Ranks
  import opened Jobs

  ghost predicate Listed(jobs: map<string, SyncJob>, syncID: string, f: LeaseFilter, now: Time, id: string) {
    exists i :: 0 <= i < |Leases(jobs, syncID, f, now)| && Leases(jobs, syncID, f, now)[i].id == id
  }

  lemma ListedIsSelected(jobs: map<string, SyncJob>, syncID: string, f: LeaseFilter, now: Time, id: string)
    requires Keyed(jobs)
    ensures Listed(jobs, syncID, f, now, id) <==> id in jobs && Selected(jobs[id], syncID, f, now)
  {
    hide Before; hide Selected;
    LeasesList(jobs, syncID, f, now);
    if id in jobs && Selected(jobs[id], syncID, f, now) {
      var i := PositionOf(LeaseRanks(jobs, syncID, f, now), LeaseRank(jobs[id]));
      assert Leases(jobs, syncID, f, now)[i].id == id;
    }
  }

  /** The active and the expired listing share no job and together list every processing job of the sync. */
  lemma LeasesPartitionProcessing(jobs: map<string, SyncJob>, syncID: string, now: Time, id: string)
    requires Keyed(jobs)
    ensures Listed(jobs, syncID, Active, now, id) || Listed(jobs, syncID, Expired, now, id)
       <==> id in jobs && jobs[id].state.Processing? && (syncID == "" || jobs[id].syncID == syncID)
    ensures !(Listed(jobs, syncID, Active, now, id) && Listed(jobs, syncID, Expired, now, id))
  {
    hide Listed;
    ListedIsSelected(jobs, syncID, Active, now, id);
    ListedIsSelected(jobs, syncID, Expired, now, id);
  }

  /** The near-expiry listing is the front of the active one, whatever limit both are cut to. */
  lemma NearExpiryIsPrefix(jobs: map<string, SyncJob>, syncID: string, now: Time, threshold: Time, limit: nat)
    requires Keyed(jobs)
    ensures Take(Leases(jobs, syncID, NearExpiry(threshold), now), limit)
         <= Take(Leases(jobs, syncID, Active, now), limit)
  {
    hide Sorted;
    var near, active := LeaseRanks(jobs, syncID, NearExpiry(threshold), now), LeaseRanks(jobs, syncID, Active, now);
    forall r | r in near ensures r in active {
      var id :| id in jobs && Selected(jobs[id], syncID, NearExpiry(threshold), now) && LeaseRank(jobs[id]) == r;
      assert Selected(jobs[id], syncID, Active, now);
    }
    forall x, y | x in active && y in near && Before(x, y) ensures x in near {
      var id :| id in jobs && Selected(jobs[id], syncID, Active, now) && LeaseRank(jobs[id]) == x;
      assert Selected(jobs[id], syncID, NearExpiry(threshold), now);
    }
    DownClosedIsPrefix(active, near);
  }

  /** An operator action with a reason succeeds exactly on the jobs of the unlimited expired listing. */
  lemma OperatorActsOnExpired(t: JobTable, jobID: string, op: OperatorAction, now: Time)
    requires Keyed(t.jobs) && !Blank(op.auditReason)
    ensures OperatorError(t, jobID, op, now).None? <==> Listed(t.jobs, "", Expired, now, jobID)
  {
    hide Listed;
    ListedIsSelected(t.jobs, "", Expired, now, jobID);
  }
}
