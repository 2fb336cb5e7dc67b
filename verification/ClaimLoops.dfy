/** Loops of single claims, each reading the clock anew: the worker's fallback for stores without batch
    claims, and the SQLite batch claim. */
module ClaimLoops {
  import opened Types
  import opened Ranks
  import opened Jobs
  import opened Releases
  import C = Claims

  /** One claim of the loop: an error it meets, or the store's clock and the end of the lease it gives. */
  datatype Attempt = Attempt(fault: Option<Error>, now: Time, until: Time)

  ghost predicate Ends(t: JobTable, syncID: string, workerID: string, ws: seq<Attempt>)
    requires Keyed(t.jobs)
  {
    ws == [] || ws[0].fault.Some? || NextJob(t, syncID, workerID, ws[0].now, ws[0].until).None?
  }

  ghost function AfterLoop(t: JobTable, syncID: string, workerID: string, ws: seq<Attempt>): (t': JobTable)
    requires Keyed(t.jobs)
    ensures Keyed(t'.jobs) && t'.jobs.Keys == t.jobs.Keys && t'.nextID == t.nextID && t'.jobByDelta == t.jobByDelta
    decreases |ws|
  {
    if Ends(t, syncID, workerID, ws) then t
    else AfterLoop(AfterClaim(t, syncID, workerID, ws[0].now, ws[0].until), syncID, workerID, ws[1..])
  }

  ghost function LoopOf(t: JobTable, syncID: string, workerID: string, ws: seq<Attempt>): (claimed: seq<SyncJob>)
    requires Keyed(t.jobs)
    ensures |claimed| <= |ws|
    decreases |ws|
  {
    if Ends(t, syncID, workerID, ws) then []
    else [NextJob(t, syncID, workerID, ws[0].now, ws[0].until).value]
         + LoopOf(AfterClaim(t, syncID, workerID, ws[0].now, ws[0].until), syncID, workerID, ws[1..])
  }

  ghost function LoopError(t: JobTable, syncID: string, workerID: string, ws: seq<Attempt>): Option<Error>
    requires Keyed(t.jobs)
    decreases |ws|
  {
    if ws == [] then None
    else if Ends(t, syncID, workerID, ws) then ws[0].fault
    else LoopError(AfterClaim(t, syncID, workerID, ws[0].now, ws[0].until), syncID, workerID, ws[1..])
  }

  /** Without faults and at one instant the loop is a batch claim, provided the lease ends after it starts. */
  lemma LoopIsBatch(t: JobTable, syncID: string, workerID: string, ws: seq<Attempt>, now: Time, until: Time)
    requires Keyed(t.jobs) && now < until
    requires forall i | 0 <= i < |ws| :: ws[i] == Attempt(None, now, until)
    ensures AfterLoop(t, syncID, workerID, ws) == AfterBatch(t, syncID, workerID, |ws|, now, until)
    ensures LoopOf(t, syncID, workerID, ws) == BatchOf(t, syncID, workerID, |ws|, now, until)
    ensures LoopError(t, syncID, workerID, ws) == None
  {
    LoopIsSingles(t, syncID, workerID, ws, now, until);
    C.BatchIsSingles(t, syncID, workerID, |ws|, now, until);
  }

  lemma {:induction false} LoopIsSingles(t: JobTable, syncID: string, workerID: string, ws: seq<Attempt>, now: Time,
                                         until: Time)
    requires Keyed(t.jobs)
    requires forall i | 0 <= i < |ws| :: ws[i] == Attempt(None, now, until)
    ensures AfterLoop(t, syncID, workerID, ws) == C.AfterSingles(t, syncID, workerID, |ws|, now, until)
    ensures LoopOf(t, syncID, workerID, ws) == C.SinglesOf(t, syncID, workerID, |ws|, now, until)
    ensures LoopError(t, syncID, workerID, ws) == None
    decreases |ws|
  {
    hide NextJob; hide AfterClaim; hide Keyed;
    if !Ends(t, syncID, workerID, ws) {
      LoopIsSingles(AfterClaim(t, syncID, workerID, now, until), syncID, workerID, ws[1..], now, until);
    }
  }

  // ----- The loop in progress -----

  /** After i iterations the loop has claimed `claimed` and left the table at `now`. */
  ghost predicate Running(t: JobTable, now: JobTable, syncID: string, workerID: string, ws: seq<Attempt>, i: nat,
                          claimed: seq<SyncJob>) {
    && Keyed(t.jobs) && Keyed(now.jobs) && i <= |ws| && now.jobs.Keys == t.jobs.Keys && KnownJobs(now.jobs, claimed)
    && |claimed| == i
    && AfterLoop(now, syncID, workerID, ws[i..]) == AfterLoop(t, syncID, workerID, ws)
    && claimed + LoopOf(now, syncID, workerID, ws[i..]) == LoopOf(t, syncID, workerID, ws)
    && LoopError(now, syncID, workerID, ws[i..]) == LoopError(t, syncID, workerID, ws)
  }

  lemma LoopStarts(t: JobTable, syncID: string, workerID: string, ws: seq<Attempt>)
    requires Keyed(t.jobs)
    ensures Running(t, t, syncID, workerID, ws, 0, [])
  {
    assert ws[0..] == ws && [] + LoopOf(t, syncID, workerID, ws) == LoopOf(t, syncID, workerID, ws);
  }

  lemma LoopGoesOn(t: JobTable, now: JobTable, syncID: string, workerID: string, ws: seq<Attempt>, i: nat,
                   claimed: seq<SyncJob>, next: SyncJob)
    requires Running(t, now, syncID, workerID, ws, i, claimed) && i < |ws| && ws[i].fault.None?
    requires NextJob(now, syncID, workerID, ws[i].now, ws[i].until) == Some(next)
    ensures Running(t, AfterClaim(now, syncID, workerID, ws[i].now, ws[i].until), syncID, workerID, ws,
                    i + 1, claimed + [next])
  {
    hide AfterClaim; hide NextJob; hide Keyed;
    C.ClaimTakesOne(now, syncID, workerID, ws[i].now, ws[i].until);
    assert ws[i..][0] == ws[i] && ws[i..][1..] == ws[i + 1..];
    var now' := AfterClaim(now, syncID, workerID, ws[i].now, ws[i].until);
    assert claimed + [next] + LoopOf(now', syncID, workerID, ws[i + 1..])
        == claimed + ([next] + LoopOf(now', syncID, workerID, ws[i + 1..]));
  }

  lemma LoopStops(t: JobTable, now: JobTable, syncID: string, workerID: string, ws: seq<Attempt>, i: nat,
                  claimed: seq<SyncJob>)
    requires Running(t, now, syncID, workerID, ws, i, claimed) && Ends(now, syncID, workerID, ws[i..])
    ensures now == AfterLoop(t, syncID, workerID, ws) && claimed == LoopOf(t, syncID, workerID, ws)
    ensures LoopError(t, syncID, workerID, ws) == if i == |ws| then None else ws[i].fault
  {
    assert i < |ws| ==> ws[i..][0] == ws[i];
    assert claimed + [] == claimed;
  }

  /** What a claim loop returns, and what it leaves: its claims, or on an error its claims given back. */
  ghost predicate LoopOutcome(before: JobTable, after: JobTable, syncID: string, workerID: string, ws: seq<Attempt>,
                              readAt: Time, releases: seq<Release>, r: Result<seq<SyncJob>>) {
    && Keyed(before.jobs) && |ws| <= |releases|
    && var claimed, leased := LoopOf(before, syncID, workerID, ws), AfterLoop(before, syncID, workerID, ws);
       match LoopError(before, syncID, workerID, ws)
       case None => after == leased && r == Ok(claimed)
       case Some(e) =>
         && KnownJobs(leased.jobs, claimed) && |claimed| <= |releases|
         && after == leased.(jobs := ReleaseAll(leased.jobs, workerID, claimed, Message(e), readAt, releases))
         && r == Err(e)
  }

  lemma RunningIsKeyed(t: JobTable, now: JobTable, syncID: string, workerID: string, ws: seq<Attempt>, i: nat,
                       claimed: seq<SyncJob>)
    requires Running(t, now, syncID, workerID, ws, i, claimed)
    ensures Keyed(now.jobs) && KnownJobs(now.jobs, claimed) && |claimed| == i
  {
  }

  lemma LoopSucceeds(t: JobTable, now: JobTable, syncID: string, workerID: string, ws: seq<Attempt>, i: nat,
                     claimed: seq<SyncJob>, readAt: Time, releases: seq<Release>)
    requires Running(t, now, syncID, workerID, ws, i, claimed) && |ws| <= |releases|
    requires i == |ws| || (ws[i].fault.None? && NextJob(now, syncID, workerID, ws[i].now, ws[i].until).None?)
    ensures LoopOutcome(t, now, syncID, workerID, ws, readAt, releases, Ok(claimed))
  {
    hide NextJob; hide AfterLoop; hide LoopOf; hide LoopError;
    assert i < |ws| ==> ws[i..][0] == ws[i];
    LoopStops(t, now, syncID, workerID, ws, i, claimed);
  }

  lemma LoopFails(t: JobTable, now: JobTable, after: JobTable, syncID: string, workerID: string, ws: seq<Attempt>,
                  i: nat, claimed: seq<SyncJob>, readAt: Time, releases: seq<Release>)
    requires Running(t, now, syncID, workerID, ws, i, claimed) && |ws| <= |releases|
    requires i < |ws| && ws[i].fault.Some?
    requires after == now.(jobs := ReleaseAll(now.jobs, workerID, claimed,
                                   Message(ws[i].fault.value), readAt, releases))
    ensures LoopOutcome(t, after, syncID, workerID, ws, readAt, releases, Err(ws[i].fault.value))
  {
    hide NextJob; hide AfterLoop; hide LoopOf; hide LoopError; hide ReleaseAll; hide Message;
    assert ws[i..][0] == ws[i];
    LoopStops(t, now, syncID, workerID, ws, i, claimed);
  }

  // ----- What a loop does to one job -----

  /** A job after any number of claims of it by one worker. */
  predicate LeasedTo(j: SyncJob, j': SyncJob, workerID: string) {
    && j'.lockedUntil.Some?
    && j' == j.(state := Processing, lockedBy := Some(workerID),
                lockedUntil := j'.lockedUntil, updatedAt := j'.updatedAt)
  }

  lemma {:induction false} LoopTakesJobs(t: JobTable, syncID: string, workerID: string, ws: seq<Attempt>)
    requires Keyed(t.jobs)
    ensures KnownJobs(t.jobs, LoopOf(t, syncID, workerID, ws))
    decreases |ws|
  {
    hide Lists; hide ClaimQueue;
    if !Ends(t, syncID, workerID, ws) {
      LoopTakesJobs(AfterClaim(t, syncID, workerID, ws[0].now, ws[0].until), syncID, workerID, ws[1..]);
    }
  }

  /** The loop touches the jobs it returns and no other; whatever it returns is leased to its worker. */
  lemma {:induction false} LoopChanges(t: JobTable, syncID: string, workerID: string, ws: seq<Attempt>, id: string)
    requires Keyed(t.jobs) && id in t.jobs
    ensures var claimed, after := LoopOf(t, syncID, workerID, ws), AfterLoop(t, syncID, workerID, ws).jobs;
      if InBatch(claimed, id) then LeasedTo(t.jobs[id], after[id], workerID) else after[id] == t.jobs[id]
    decreases |ws|
  {
    hide Lists; hide ClaimQueue;
    if !Ends(t, syncID, workerID, ws) {
      var next := AfterClaim(t, syncID, workerID, ws[0].now, ws[0].until);
      var head := NextJob(t, syncID, workerID, ws[0].now, ws[0].until).value;
      var rest := LoopOf(next, syncID, workerID, ws[1..]);
      LoopChanges(next, syncID, workerID, ws[1..], id);
      HeadOrRest(head, rest, id);
    }
  }

  lemma HeadOrRest(head: SyncJob, rest: seq<SyncJob>, id: string)
    ensures InBatch([head] + rest, id) <==> head.id == id || InBatch(rest, id)
  {
    var all := [head] + rest;
    assert all[0] == head && forall k | 0 <= k < |rest| :: all[k + 1] == rest[k];
    assert forall k | 1 <= k < |all| :: all[k] == rest[k - 1];
  }

  lemma {:induction false} LeasedIsNotReclaimed(t: JobTable, syncID: string, workerID: string, ws: seq<Attempt>,
                                                id: string)
    requires Keyed(t.jobs) && id in t.jobs && t.jobs[id].state.Processing? && t.jobs[id].lockedUntil.Some?
    requires forall i | 0 <= i < |LoopOf(t, syncID, workerID, ws)| :: ws[i].now < t.jobs[id].lockedUntil.value
    ensures !InBatch(LoopOf(t, syncID, workerID, ws), id)
    decreases |ws|
  {
    hide AfterClaim; hide NextJob;
    if !Ends(t, syncID, workerID, ws) {
      var next := AfterClaim(t, syncID, workerID, ws[0].now, ws[0].until);
      var head := NextJob(t, syncID, workerID, ws[0].now, ws[0].until).value;
      C.ClaimTakesOne(t, syncID, workerID, ws[0].now, ws[0].until);
      assert head.id != id;
      assert forall i | 0 <= i < |LoopOf(next, syncID, workerID, ws[1..])| :: ws[1..][i] == ws[i + 1];
      LeasedIsNotReclaimed(next, syncID, workerID, ws[1..], id);
      HeadOrRest(head, LoopOf(next, syncID, workerID, ws[1..]), id);
    }
  }

  /** A loop each of whose claims comes before the end of the leases given before it claims no job twice. */
  lemma {:induction false} LoopIsDistinct(t: JobTable, syncID: string, workerID: string, ws: seq<Attempt>)
    requires Keyed(t.jobs)
    requires forall i, k | 0 <= i < k < |LoopOf(t, syncID, workerID, ws)| :: ws[k].now < ws[i].until
    ensures Batch(t.jobs, LoopOf(t, syncID, workerID, ws))
    decreases |ws|
  {
    hide Lists; hide ClaimQueue;
    LoopTakesJobs(t, syncID, workerID, ws);
    if !Ends(t, syncID, workerID, ws) {
      var next := AfterClaim(t, syncID, workerID, ws[0].now, ws[0].until);
      var head := NextJob(t, syncID, workerID, ws[0].now, ws[0].until).value;
      var rest := LoopOf(next, syncID, workerID, ws[1..]);
      assert forall i | 0 <= i < |rest| :: ws[1..][i] == ws[i + 1];
      LoopIsDistinct(next, syncID, workerID, ws[1..]);
      LeasedIsNotReclaimed(next, syncID, workerID, ws[1..], head.id);
      assert forall k | 0 <= k < |rest| :: rest[k].id != head.id;
    }
  }

  /** The job ranks before every other job of the sync that is not finished. */
  ghost predicate Foremost(jobs: map<string, SyncJob>, syncID: string, id: string) {
    && id in jobs && jobs[id].syncID == syncID && Live(jobs[id])
    && (forall other | other in jobs && other != id && jobs[other].syncID == syncID && Live(jobs[other]) ::
          Before(ClaimRank(jobs[id]), ClaimRank(jobs[other])))
  }

  /** A claim takes the foremost job whenever that can be claimed, and keeps it foremost. */
  lemma ForemostIsTaken(t: JobTable, syncID: string, workerID: string, now: Time, until: Time, id: string)
    requires Keyed(t.jobs) && Foremost(t.jobs, syncID, id)
    ensures Foremost(AfterClaim(t, syncID, workerID, now, until).jobs, syncID, id)
    ensures Claimable(t.jobs[id], now, syncID) ==>
              NextJob(t, syncID, workerID, now, until) == Some(Claimed(t.jobs[id], workerID, now, until))
  {
    hide Before; hide Sorted;
    QueueLists(t.jobs, syncID, now);
    var q := ClaimQueue(t.jobs, syncID, now);
    if Claimable(t.jobs[id], now, syncID) {
      var i := QueuePosition(t.jobs, syncID, now, id);
      if q[0].id != id { BeforeIsStrictTotalOrder(q[0], q[i], q[0]); }
    }
  }

  /** A claim that comes after the end of the foremost job's lease has that job claimed once more. */
  lemma {:induction false} ForemostIsReclaimed(t: JobTable, syncID: string, workerID: string, ws: seq<Attempt>,
                                               id: string, k: nat)
    requires Keyed(t.jobs) && Foremost(t.jobs, syncID, id) && t.jobs[id].state.Processing?
    requires t.jobs[id].lockedUntil.Some? && k < |LoopOf(t, syncID, workerID, ws)|
    requires t.jobs[id].lockedUntil.value <= ws[k].now
    ensures InBatch(LoopOf(t, syncID, workerID, ws), id)
    decreases |ws|
  {
    hide Before; hide ClaimQueue; hide Lists; hide Foremost;
    assert Keyed(t.jobs) && t.jobs[id].id == id && t.jobs[id].syncID == syncID by { ForemostIs(t.jobs, syncID, id); }
    var next := AfterClaim(t, syncID, workerID, ws[0].now, ws[0].until);
    var head := NextJob(t, syncID, workerID, ws[0].now, ws[0].until).value;
    ForemostIsTaken(t, syncID, workerID, ws[0].now, ws[0].until, id);
    HeadOrRest(head, LoopOf(next, syncID, workerID, ws[1..]), id);
    if head.id != id {
      assert k > 0 && ws[1..][k - 1] == ws[k];
      assert next.jobs[id] == t.jobs[id];
      ForemostIsReclaimed(next, syncID, workerID, ws[1..], id, k - 1);
    }
  }

  lemma ForemostIs(jobs: map<string, SyncJob>, syncID: string, id: string)
    requires Keyed(jobs) && Foremost(jobs, syncID, id)
    ensures id in jobs && jobs[id].id == id && jobs[id].syncID == syncID
  {
  }

  /** Under a non-decreasing clock, a loop that starts with the foremost job claims no job twice exactly if it
      makes all its claims before the end of its first lease. */
  lemma DistinctWithinFirstLease(t: JobTable, syncID: string, workerID: string, ws: seq<Attempt>)
    requires Keyed(t.jobs)
    requires forall i, k | 0 <= i < k < |ws| :: ws[i].now <= ws[k].now && ws[i].until <= ws[k].until
    requires LoopOf(t, syncID, workerID, ws) != [] ==>
               Foremost(t.jobs, syncID, LoopOf(t, syncID, workerID, ws)[0].id)
    ensures Batch(t.jobs, LoopOf(t, syncID, workerID, ws)) <==>
              forall k | 1 <= k < |LoopOf(t, syncID, workerID, ws)| :: ws[k].now < ws[0].until
  {
    hide LoopOf; hide Foremost; hide Batch;
    var claimed := LoopOf(t, syncID, workerID, ws);
    if forall k | 1 <= k < |claimed| :: ws[k].now < ws[0].until {
      LoopIsDistinct(t, syncID, workerID, ws);
    } else {
      var k :| 1 <= k < |claimed| && ws[0].until <= ws[k].now;
      LateClaimRepeats(t, syncID, workerID, ws, k);
    }
  }

  lemma LateClaimRepeats(t: JobTable, syncID: string, workerID: string, ws: seq<Attempt>, k: nat)
    requires Keyed(t.jobs) && 1 <= k < |LoopOf(t, syncID, workerID, ws)| && ws[0].until <= ws[k].now
    requires Foremost(t.jobs, syncID, LoopOf(t, syncID, workerID, ws)[0].id)
    ensures !Batch(t.jobs, LoopOf(t, syncID, workerID, ws))
  {
    hide Foremost; hide AfterClaim; hide NextJob; hide Keyed; hide KnownJobs;
    var claimed, next := LoopOf(t, syncID, workerID, ws), AfterClaim(t, syncID, workerID, ws[0].now, ws[0].until);
    var rest, id := LoopOf(next, syncID, workerID, ws[1..]), claimed[0].id;
    C.ClaimTakesOne(t, syncID, workerID, ws[0].now, ws[0].until);
    ForemostIsTaken(t, syncID, workerID, ws[0].now, ws[0].until, id);
    assert ws[1..][k - 1] == ws[k];
    ForemostIsReclaimed(next, syncID, workerID, ws[1..], id, k - 1);
    var i :| 0 <= i < |rest| && rest[i].id == id;
    assert claimed[i + 1].id == id;
  }

  // ----- Compensation -----

  /** Every release reaches the store while the lease on its job is alive. */
  ghost predicate LeasesLive(t: JobTable, workerID: string, batch: seq<SyncJob>, releases: seq<Release>) {
    && KnownJobs(t.jobs, batch) && |batch| <= |releases|
    && (forall k | 0 <= k < |batch| :: ReleaseWorks(t.jobs[batch[k].id], workerID, releases[k]))
  }

  lemma {:induction false} LeaseOutlasts(t: JobTable, syncID: string, workerID: string, ws: seq<Attempt>, id: string,
                                         at: Time)
    requires Keyed(t.jobs) && id in t.jobs
    requires forall i | 0 <= i < |LoopOf(t, syncID, workerID, ws)| :: at < ws[i].until
    requires InBatch(LoopOf(t, syncID, workerID, ws), id) || LeaseOwned(t.jobs[id], at, workerID)
    ensures LeaseOwned(AfterLoop(t, syncID, workerID, ws).jobs[id], at, workerID)
    decreases |ws|
  {
    hide Lists; hide ClaimQueue;
    if !Ends(t, syncID, workerID, ws) {
      var next := AfterClaim(t, syncID, workerID, ws[0].now, ws[0].until);
      var head := NextJob(t, syncID, workerID, ws[0].now, ws[0].until).value;
      var rest := LoopOf(next, syncID, workerID, ws[1..]);
      HeadOrRest(head, rest, id);
      LeaseOutlasts(next, syncID, workerID, ws[1..], id, at);
    }
  }

  /** Releases of the claimed jobs that come before the end of every lease given find the leases alive. */
  lemma ReleasedInTime(t: JobTable, syncID: string, workerID: string, ws: seq<Attempt>, releases: seq<Release>)
    requires Keyed(t.jobs) && |LoopOf(t, syncID, workerID, ws)| <= |releases|
    requires forall k | 0 <= k < |LoopOf(t, syncID, workerID, ws)| :: !releases[k].failed
    requires forall i, k | 0 <= i < |LoopOf(t, syncID, workerID, ws)| && 0 <= k < |LoopOf(t, syncID, workerID, ws)| ::
               releases[k].at < ws[i].until
    ensures LeasesLive(AfterLoop(t, syncID, workerID, ws), workerID, LoopOf(t, syncID, workerID, ws), releases)
  {
    hide AfterLoop; hide LoopOf; hide LeaseOwned;
    var claimed := LoopOf(t, syncID, workerID, ws);
    LoopTakesJobs(t, syncID, workerID, ws);
    forall k | 0 <= k < |claimed|
      ensures ReleaseWorks(AfterLoop(t, syncID, workerID, ws).jobs[claimed[k].id], workerID, releases[k])
    {
      assert InBatch(claimed, claimed[k].id);
      LeaseOutlasts(t, syncID, workerID, ws, claimed[k].id, releases[k].at);
    }
  }

  /** A claim loop that fails gives everything back: no job it claimed stays leased, no attempt is recorded,
      and no other job changes. */
  lemma {:induction false} FailedLoopLeavesNothing(t: JobTable, syncID: string, workerID: string, ws: seq<Attempt>,
                                                   reason: string, nextRunAt: Time, releases: seq<Release>, id: string)
    requires Keyed(t.jobs) && id in t.jobs
    requires LeasesLive(AfterLoop(t, syncID, workerID, ws), workerID, LoopOf(t, syncID, workerID, ws), releases)
    ensures var claimed, leased := LoopOf(t, syncID, workerID, ws), AfterLoop(t, syncID, workerID, ws);
      var after := ReleaseAll(leased.jobs, workerID, claimed, reason, nextRunAt, releases);
      if InBatch(claimed, id) then GivenBack(t.jobs[id], after[id]) else after[id] == t.jobs[id]
  {
    hide ReleaseAll; hide AfterLoop; hide LoopOf; hide ReleaseWorks;
    var claimed, leased := LoopOf(t, syncID, workerID, ws), AfterLoop(t, syncID, workerID, ws);
    LoopChanges(t, syncID, workerID, ws, id);
    if InBatch(claimed, id) {
      var k :| 0 <= k < |claimed| && claimed[k].id == id;
      LiveLeasesAreGivenBack(leased.jobs, workerID, claimed, reason, nextRunAt, releases, k);
    } else {
      OthersAreKept(leased.jobs, workerID, claimed, reason, nextRunAt, releases, id);
    }
  }
}
