/** Batch claims against single claims. */
module Claims {
  import opened Types
  import opened Ranks
  import opened Jobs

  /** The worker's fallback: call `ClaimNext` up to k times, stop when there is nothing to claim. */
  ghost function AfterSingles(t: JobTable, syncID: string, workerID: string, k: nat, now: Time, until: Time): JobTable
    requires Keyed(t.jobs)
    decreases k
  {
    if k == 0 || NextJob(t, syncID, workerID, now, until).None? then t
    else AfterSingles(AfterClaim(t, syncID, workerID, now, until), syncID, workerID, k - 1, now, until)
  }

  ghost function SinglesOf(t: JobTable, syncID: string, workerID: string, k: nat, now: Time, until: Time): seq<SyncJob>
    requires Keyed(t.jobs)
    decreases k
  {
    if k == 0 || NextJob(t, syncID, workerID, now, until).None? then []
    else [NextJob(t, syncID, workerID, now, until).value]
         + SinglesOf(AfterClaim(t, syncID, workerID, now, until), syncID, workerID, k - 1, now, until)
  }

  lemma RanksWithoutClaimed(jobs: map<string, SyncJob>, id: string, syncID: string, workerID: string, now: Time,
                            until: Time)
    requires Keyed(jobs) && id in jobs && now < until
    ensures ClaimRanks(Lease(jobs, id, workerID, now, until), syncID, now)
         == ClaimRanks(jobs, syncID, now) - {ClaimRank(jobs[id])}
  {
    var after := Lease(jobs, id, workerID, now, until);
    forall r | r in ClaimRanks(jobs, syncID, now) && r != ClaimRank(jobs[id])
      ensures r in ClaimRanks(after, syncID, now)
    {
      var other :| other in jobs && Claimable(jobs[other], now, syncID) && ClaimRank(jobs[other]) == r;
      assert after[other] == jobs[other];
    }
    forall r | r in ClaimRanks(after, syncID, now)
      ensures r in ClaimRanks(jobs, syncID, now) && r != ClaimRank(jobs[id])
    {
      var other :| other in after && Claimable(after[other], now, syncID) && ClaimRank(after[other]) == r;
      assert other != id;
      assert jobs[other] == after[other];
    }
  }

  /** Once leased past `now`, the head leaves the claim queue and the rest of the queue is unchanged. */
  lemma HeadLeavesQueue(jobs: map<string, SyncJob>, syncID: string, workerID: string, now: Time, until: Time)
    requires Keyed(jobs) && now < until && ClaimQueue(jobs, syncID, now) != []
    ensures var q := ClaimQueue(jobs, syncID, now);
      ClaimQueue(Lease(jobs, q[0].id, workerID, now, until), syncID, now) == q[1..]
  {
    hide Before;
    var q := ClaimQueue(jobs, syncID, now);
    RanksWithoutClaimed(jobs, q[0].id, syncID, workerID, now, until);
    assert Elements(q[..1]) == {q[0]};
    SortedDrop(ClaimRanks(jobs, syncID, now), 1);
  }

  /** At one instant, a batch claim of k returns the jobs and leaves the table that k single claims do. */
  lemma {:induction false} BatchIsSingles(t: JobTable, syncID: string, workerID: string, k: nat, now: Time, until: Time)
    requires Keyed(t.jobs) && now < until
    ensures AfterBatch(t, syncID, workerID, k, now, until) == AfterSingles(t, syncID, workerID, k, now, until)
    ensures BatchOf(t, syncID, workerID, k, now, until) == SinglesOf(t, syncID, workerID, k, now, until)
    decreases k
  {
    hide Lists; hide ClaimQueue; hide Claimed; hide Keyed;
    var q := ClaimQueue(t.jobs, syncID, now);
    if k == 0 || q == [] {
      assert Take(q, k) == [];
    } else {
      HeadLeavesQueue(t.jobs, syncID, workerID, now, until);
      assert Take(q, k)[1..] == Take(q[1..], k - 1) && Take(q, k)[0] == q[0];
      BatchIsSingles(AfterClaim(t, syncID, workerID, now, until), syncID, workerID, k - 1, now, until);
    }
  }

  /** A batch claim returns as many jobs as are claimable up to the limit, in strictly ascending
      (AvailableAt, CreatedAt, ID) order, ... */
  lemma BatchIsAscending(t: JobTable, syncID: string, workerID: string, limit: nat, now: Time, until: Time)
    requires Keyed(t.jobs)
    ensures var claimed := BatchOf(t, syncID, workerID, limit, now, until);
      && |claimed| == Min(|ClaimRanks(t.jobs, syncID, now)|, limit)
      && (forall i, j | 0 <= i < j < |claimed| :: Before(ClaimRank(claimed[i]), ClaimRank(claimed[j])))
  {
    hide Before; hide Claimable; hide ClaimRanks;
    var q := ClaimQueue(t.jobs, syncID, now);
    var taken := Take(q, limit);
    CopiesAreLeased(t.jobs, taken, workerID, now, until);
    var claimed := BatchOf(t, syncID, workerID, limit, now, until);
    assert forall i | 0 <= i < |taken| :: taken[i] == q[i];
    assert forall i | 0 <= i < |taken| :: ClaimRank(claimed[i]) == taken[i];
  }

  lemma BatchByRank(t: JobTable, syncID: string, workerID: string, limit: nat, now: Time, until: Time)
    requires Keyed(t.jobs)
    ensures var claimed, q := BatchOf(t, syncID, workerID, limit, now, until),
                              Take(ClaimQueue(t.jobs, syncID, now), limit);
      && |claimed| == |q| && Lists(t.jobs, q)
      && (forall i | 0 <= i < |q| ::
            && Claimable(t.jobs[q[i].id], now, syncID)
            && claimed[i] == Claimed(t.jobs[q[i].id], workerID, now, until))
      && AfterBatch(t, syncID, workerID, limit, now, until).jobs == LeaseSet(t.jobs, Ids(q), workerID, now, until)
  {
    hide Ascending; hide Claimable; hide ClaimQueue; hide Take; hide Claimed; hide ClaimRank; hide Ids; hide LeaseSet;
    hide Copies; hide LeaseAll; hide Keyed;
    var q := Take(ClaimQueue(t.jobs, syncID, now), limit);
    TakenAreClaimable(t.jobs, syncID, now, limit);
    LeaseAllAtOnce(t.jobs, q, workerID, now, until);
    CopiesAreLeased(t.jobs, q, workerID, now, until);
  }

  lemma TakenAreClaimable(jobs: map<string, SyncJob>, syncID: string, now: Time, limit: nat)
    requires Keyed(jobs)
    ensures var q := Take(ClaimQueue(jobs, syncID, now), limit);
      Lists(jobs, q) && forall i | 0 <= i < |q| :: Claimable(jobs[q[i].id], now, syncID)
  {
    hide Claimable; hide ClaimRanks; hide Lists; hide Keyed; hide Sorted;
    QueueLists(jobs, syncID, now);
    TakeLists(jobs, ClaimQueue(jobs, syncID, now), limit);
  }

  lemma TakeLists(jobs: map<string, SyncJob>, q: seq<Rank>, limit: nat)
    requires Lists(jobs, q)
    ensures Lists(jobs, Take(q, limit))
  {
    hide Before; hide ClaimRank;
  }

  /** ... each of them claimable before and leased now. */
  lemma BatchIsLeased(t: JobTable, syncID: string, workerID: string, limit: nat, now: Time, until: Time)
    requires Keyed(t.jobs)
    ensures var claimed, after := BatchOf(t, syncID, workerID, limit, now, until),
                                  AfterBatch(t, syncID, workerID, limit, now, until).jobs;
      && after.Keys == t.jobs.Keys
      && (forall i | 0 <= i < |claimed| ::
            && claimed[i].id in t.jobs && Claimable(t.jobs[claimed[i].id], now, syncID)
            && claimed[i] == Claimed(t.jobs[claimed[i].id], workerID, now, until)
            && after[claimed[i].id] == claimed[i])
  {
    hide BatchOf; hide AfterBatch; hide ClaimQueue; hide Take; hide Claimable; hide Ascending;
    var taken := Take(ClaimQueue(t.jobs, syncID, now), limit);
    BatchByRank(t, syncID, workerID, limit, now, until);
    assert forall i | 0 <= i < |taken| :: taken[i].id in Ids(taken);
  }

  lemma BatchIsDistinct(t: JobTable, syncID: string, workerID: string, limit: nat, now: Time, until: Time, i: nat,
                        j: nat)
    requires Keyed(t.jobs) && i < j < |BatchOf(t, syncID, workerID, limit, now, until)|
    ensures BatchOf(t, syncID, workerID, limit, now, until)[i].id
         != BatchOf(t, syncID, workerID, limit, now, until)[j].id
  {
    hide Before;
    BatchIsAscending(t, syncID, workerID, limit, now, until);
    BatchIsLeased(t, syncID, workerID, limit, now, until);
    var claimed := BatchOf(t, syncID, workerID, limit, now, until);
    BeforeIsStrictTotalOrder(ClaimRank(claimed[i]), ClaimRank(claimed[j]), ClaimRank(claimed[i]));
  }

  /** A job the batch did not take is untouched, and if it was claimable then every job taken precedes it. */
  lemma BatchTakesLeast(t: JobTable, syncID: string, workerID: string, limit: nat, now: Time, until: Time, id: string)
    requires Keyed(t.jobs) && id in t.jobs
    requires !InBatch(BatchOf(t, syncID, workerID, limit, now, until), id)
    ensures var claimed, after := BatchOf(t, syncID, workerID, limit, now, until),
                                  AfterBatch(t, syncID, workerID, limit, now, until).jobs;
      && id in after && after[id] == t.jobs[id]
      && (Claimable(t.jobs[id], now, syncID) ==>
            forall i | 0 <= i < |claimed| :: Before(ClaimRank(claimed[i]), ClaimRank(t.jobs[id])))
  {
    hide Before; hide Claimable; hide Ready; hide BatchOf; hide AfterBatch; hide ClaimRanks;
    BatchByRank(t, syncID, workerID, limit, now, until);
    var q := ClaimQueue(t.jobs, syncID, now);
    var taken, claimed := Take(q, limit), BatchOf(t, syncID, workerID, limit, now, until);
    assert forall i | 0 <= i < |taken| :: taken[i] == q[i] && ClaimRank(claimed[i]) == taken[i];
    if Claimable(t.jobs[id], now, syncID) {
      var p := QueuePosition(t.jobs, syncID, now, id);
      assert p >= |taken|;
    }
  }

  /** A single claim leases a job that could be claimed, and touches no other. */
  lemma ClaimTakesOne(t: JobTable, syncID: string, workerID: string, now: Time, until: Time)
    requires Keyed(t.jobs)
    ensures match NextJob(t, syncID, workerID, now, until)
      case None => AfterClaim(t, syncID, workerID, now, until) == t
      case Some(job) =>
        && job.id in t.jobs && Claimable(t.jobs[job.id], now, syncID)
        && job == Claimed(t.jobs[job.id], workerID, now, until)
        && AfterClaim(t, syncID, workerID, now, until) == t.(jobs := t.jobs[job.id := job])
  {
    hide Before; hide Sorted; hide Claimable;
    QueueLists(t.jobs, syncID, now);
  }

  /** Where one job alone can be claimed, a claim takes it. */
  lemma OnlyJobIsClaimed(t: JobTable, syncID: string, workerID: string, now: Time, until: Time, id: string)
    requires Keyed(t.jobs) && id in t.jobs && Claimable(t.jobs[id], now, syncID)
    requires forall other | other in t.jobs && other != id :: !Claimable(t.jobs[other], now, syncID)
    ensures var taken := Claimed(t.jobs[id], workerID, now, until);
      && NextJob(t, syncID, workerID, now, until) == Some(taken)
      && BatchOf(t, syncID, workerID, 1, now, until) == [taken]
      && AfterBatch(t, syncID, workerID, 1, now, until) == t.(jobs := t.jobs[id := taken])
  {
    hide Before; hide Sorted; hide Claimable; hide Claimed; hide Keyed;
    var q, jobs := [ClaimRank(t.jobs[id])], t.jobs;
    assert jobs[id].id == id by { KeyedAt(jobs, id); }
    assert ClaimRank(jobs[id]) in ClaimRanks(jobs, syncID, now);
    assert ClaimRanks(jobs, syncID, now) == {ClaimRank(jobs[id])};
    SortedSingleton(ClaimRank(jobs[id]));
    assert ClaimQueue(jobs, syncID, now) == q && Take(q, 1) == q && q[1..] == [];
    assert Copies(Lease(jobs, id, workerID, now, until), q[1..], workerID, now, until) == [];
    assert LeaseAll(Lease(jobs, id, workerID, now, until), q[1..], workerID, now, until)
        == Lease(jobs, id, workerID, now, until);
  }

  lemma KeyedAt(jobs: map<string, SyncJob>, id: string)
    requires Keyed(jobs) && id in jobs
    ensures jobs[id].id == id
  {
  }
}
