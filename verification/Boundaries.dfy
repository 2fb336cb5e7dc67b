/** Concrete inputs at the limits of what the protocol promises. */
module Boundaries {
  import opened Types
  import opened Names
  import opened Jobs
  import opened Dispatch
  import opened Runs
  import opened Protocol
  import opened Attempts
  import C = Claims
  import D = Deltas

  const SYNC: string := "customers"
  const ID: string := "job-1"

  function NewJobOf(maxAttempts: int): SyncJob {
    SyncJob(ID, SYNC, None, Manual, CUSTOMER, map[], "", Pending, 0, maxAttempts, None, None, 0,
            None, None, false, None,
            None, 0, 0)
  }

  // ----- Why a routine must not claim a job it already holds -----

  function OneJob(j: SyncJob): JobTable {
    JobTable(1, map[ID := j], map[])
  }

  lemma OneJobIsClaimed(t: JobTable, j: SyncJob, w: string, now: Time, until: Time)
    requires t.jobs == map[ID := j] && j.id == ID && Claimable(j, now, SYNC)
    ensures Claimed(j, w, now, until).id == ID && Keyed(t.jobs)
    ensures BatchOf(t, SYNC, w, 1, now, until) == [Claimed(j, w, now, until)]
    ensures AfterBatch(t, SYNC, w, 1, now, until) == t.(jobs := map[ID := Claimed(j, w, now, until)])
  {
    hide Claimable; hide BatchOf; hide AfterBatch; hide NextJob;
    C.OnlyJobIsClaimed(t, SYNC, w, now, until, ID);
  }

  lemma BehindByAFailure(t: JobTable, id: string, w: string, snapshot: SyncJob, error: string, clock: Time, now: Time)
    requires id in t.jobs && LeaseOwned(t.jobs[id], now, w) && SameIdentity(snapshot, t.jobs[id])
    requires snapshot.attemptCount <= t.jobs[id].attemptCount < t.jobs[id].maxAttempts
    ensures var j, j' := t.jobs[id], AfterUpdate(t, id, w, FailOrRetry(snapshot, error, clock), now).jobs[id];
      && j'.attemptCount == j.attemptCount + 1 && j'.maxAttempts == j.maxAttempts
      && (Live(j') && j'.attemptCount == j'.maxAttempts
          <==> snapshot.attemptCount < j.attemptCount == j.maxAttempts - 1)
  {
    hide WorkerBackoff;
  }

  /** A routine claims a job of which it holds an earlier snapshot, and fails it, within the lease, from that one.
      This leaves the job alive with all its attempts used up exactly if a failure was recorded since the snapshot
      and the job had one attempt left. */
  lemma StaleClaimOverruns(t: JobTable, syncID: string, r: string, limit: nat, at: Time, until: Time, snapshot: SyncJob,
                           error: string, clock: Time, now: Time)
    requires JobsValid(t) && snapshot.id in t.jobs && SameIdentity(snapshot, t.jobs[snapshot.id]) && at <= now < until
    requires snapshot.attemptCount <= t.jobs[snapshot.id].attemptCount < t.jobs[snapshot.id].maxAttempts
    requires InBatch(BatchOf(t, syncID, r, limit, at, until), snapshot.id)
    ensures var claimed, t1 := BatchOf(t, syncID, r, limit, at, until), AfterBatch(t, syncID, r, limit, at, until);
      && snapshot.id in t1.jobs
      && var t2 := AfterUpdate(t1, snapshot.id, r, FailOrRetry(snapshot, error, clock), now);
         var j, j' := t.jobs[snapshot.id], t2.jobs[snapshot.id];
         (Live(j') && j'.attemptCount == j'.maxAttempts
          <==> !NoFailureSince(snapshot, claimed) && j.attemptCount == j.maxAttempts - 1)
  {
    hide Mapped; hide Keyed; hide BatchOf; hide AfterBatch; hide Claimable; hide AfterUpdate;
    var claimed := BatchOf(t, syncID, r, limit, at, until);
    C.BatchIsLeased(t, syncID, r, limit, at, until);
    ClaimChange(t, syncID, r, limit, at, until, snapshot.id);
    var t1 := AfterBatch(t, syncID, r, limit, at, until);
    BehindByAFailure(t1, snapshot.id, r, snapshot, error, clock, now);
    var i :| 0 <= i < |claimed| && claimed[i].id == snapshot.id;
    assert claimed[i] == t1.jobs[snapshot.id];
  }

  /** From there the next failure, however up to date its snapshot, exceeds the maximum. */
  lemma NextFailureExceeds(t: JobTable, id: string, w: string, error: string, clock: Time, now: Time)
    requires id in t.jobs && LeaseOwned(t.jobs[id], now, w) && t.jobs[id].attemptCount == t.jobs[id].maxAttempts
    ensures var j' := AfterUpdate(t, id, w, FailOrRetry(t.jobs[id], error, clock), now).jobs[id];
      j'.state.Dead? && j'.attemptCount == j'.maxAttempts + 1
  {
    hide WorkerBackoff;
  }

  ghost predicate ClaimsOne(t: JobTable, w: string, at: Time, j: SyncJob, t': JobTable) {
    && Keyed(t.jobs) && BatchOf(t, SYNC, w, 1, at, at + SECOND) == [j]
    && t' == AfterBatch(t, SYNC, w, 1, at, at + SECOND)
  }

  /** The job as "a" and then "b" claim it, as the failure of "b" leaves it, as "a" claims it again, and as the
      failure of "a" leaves it. */
  function Older(): SyncJob {
    Claimed(NewJobOf(2), "a", 0, SECOND)
  }

  function Other(): SyncJob {
    Claimed(Older(), "b", SECOND, 2 * SECOND)
  }

  function AfterOther(): SyncJob {
    Updated(Other(), FailOrRetry(Other(), "", SECOND), SECOND)
  }

  function Newer(): SyncJob {
    Claimed(AfterOther(), "a", 6 * SECOND, 7 * SECOND)
  }

  function Overrun(): SyncJob {
    Updated(Newer(), FailOrRetry(Older(), "", 6 * SECOND), 6 * SECOND)
  }

  lemma JobsInOrder()
    ensures Claimable(NewJobOf(2), 0, SYNC) && Claimable(Older(), SECOND, SYNC)
    ensures Claimable(AfterOther(), 6 * SECOND, SYNC)
    ensures LeaseOwned(Other(), SECOND, "b") && LeaseOwned(Newer(), 6 * SECOND, "a")
    ensures AfterOther().id == ID && Live(Overrun()) && Overrun().attemptCount == Overrun().maxAttempts
  {
  }

  lemma OneJobIsUpdated(j: SyncJob, w: string, u: LeaseUpdate, now: Time)
    requires LeaseOwned(j, now, w) && !u.RenewLease?
    ensures AfterUpdate(OneJob(j), ID, w, u, now) == OneJob(Updated(j, u, now))
  {
    hide LeaseOwned; hide Updated;
  }

  /** A routine whose claim loop outlasts its first lease can hold two snapshots of one job, with another
      worker's failure between them. Deciding from the older one it leaves the job alive with all its attempts
      used up: "a" claims at 0 and again at 6 s, "b" claims and fails in between. */
  lemma StaleSnapshotOverruns() returns (t1: JobTable, t2: JobTable, t3: JobTable, t4: JobTable, t5: JobTable,
                                         older: SyncJob, other: SyncJob, newer: SyncJob)
    ensures ClaimsOne(OneJob(NewJobOf(2)), "a", 0, older, t1)
    ensures ClaimsOne(t1, "b", SECOND, other, t2)
    ensures t3 == AfterUpdate(t2, ID, "b", FailOrRetry(other, "", SECOND), SECOND)
    ensures ClaimsOne(t3, "a", 6 * SECOND, newer, t4) && newer.id == older.id
    ensures t5 == AfterUpdate(t4, ID, "a", FailOrRetry(older, "", 6 * SECOND), 6 * SECOND)
    ensures ID in t5.jobs && Live(t5.jobs[ID]) && t5.jobs[ID].attemptCount == t5.jobs[ID].maxAttempts
  {
    hide BatchOf; hide AfterBatch; hide Keyed; hide Claimable; hide LeaseOwned; hide Claimed; hide Updated; hide Live;
    hide AfterUpdate; hide WorkerBackoff;
    JobsInOrder();
    older, other, newer := Older(), Other(), Newer();
    t1, t2, t3, t4, t5 := OneJob(older), OneJob(other), OneJob(AfterOther()), OneJob(newer), OneJob(Overrun());
    OneJobIsClaimed(OneJob(NewJobOf(2)), NewJobOf(2), "a", 0, SECOND);
    OneJobIsClaimed(t1, older, "b", SECOND, 2 * SECOND);
    OneJobIsUpdated(other, "b", FailOrRetry(other, "", SECOND), SECOND);
    OneJobIsClaimed(t3, AfterOther(), "a", 6 * SECOND, 7 * SECOND);
    OneJobIsUpdated(newer, "a", FailOrRetry(older, "", 6 * SECOND), 6 * SECOND);
  }

  // ----- How close two recorded failures can come -----

  /** A lock duration that outlasts the record. */
  function LockFor(at: Time, recorded: Time): int {
    recorded - at + SECOND
  }

  /** A routine claims the job at `at`, its projector fails and it decides at once, and the store records the
      failure at `recorded`. */
  function FailedTry(w: string, at: Time, recorded: Time): seq<Tick> {
    [Tick(at, ClaimJobs(w, SYNC, 1, LockFor(at, recorded))), Tick(at, Project(w, true)), Tick(at, Decide(w, false, "")),
     Tick(recorded, Finalise(w, false, "", recorded))]
  }

  /** The clock, the only job, its failures and where routine `w` stands. */
  ghost predicate Holds(s: System, now: Time, w: string, j: SyncJob, f: seq<Failure>, rt: Routine) {
    && StoresValid(s.stores) && s.now == now && s.stores.jobs.jobs == map[ID := j] && j.id == ID
    && ID in s.failures && s.failures[ID] == f && RoutineOf(s, w) == rt
  }

  lemma {:induction false} ClaimTick(s: System, w: string, j: SyncJob, f: seq<Failure>, at: Time,
                                     lockFor: int)
    requires Holds(s, s.now, w, j, f, IDLE) && at >= s.now && Claimable(j, at, SYNC) && lockFor > 0
    ensures Enabled(s, at, ClaimJobs(w, SYNC, 1, lockFor))
    ensures var j' := Claimed(j, w, at, at + lockFor);
      Holds(Step(s, at, ClaimJobs(w, SYNC, 1, lockFor)), at, w, j', f, Routine([j'], Collecting))
  {
    hide StoresValid; hide BatchOf; hide AfterBatch; hide Claimable; hide Claimed; hide Keyed;
    OneJobIsClaimed(s.stores.jobs, j, w, at, at + lockFor);
    assert [] + [Claimed(j, w, at, at + lockFor)] == [Claimed(j, w, at, at + lockFor)] && f + [] == f;
  }

  lemma {:induction false} ProjectTick(s: System, w: string, j: SyncJob, f: seq<Failure>, at: Time)
    requires Holds(s, at, w, j, f, Routine([j], Collecting))
    ensures Enabled(s, at, Project(w, true))
    ensures Holds(Step(s, at, Project(w, true)), at, w, j, f, Routine([j], Projected(Broken)))
  {
    hide StoresValid;
    assert f + [] == f;
  }

  lemma {:induction false} DecideTick(s: System, w: string, j: SyncJob, f: seq<Failure>, at: Time)
    requires Holds(s, at, w, j, f, Routine([j], Projected(Broken)))
    ensures Enabled(s, at, Decide(w, false, ""))
    ensures Holds(Step(s, at, Decide(w, false, "")), at, w, j, f,
                  Routine([j], Finalising(FailOrRetry(j, "", at), at)))
  {
    hide StoresValid; hide FailOrRetry;
    assert f + [] == f;
  }

  lemma {:induction false} FinaliseTick(s: System, w: string, j: SyncJob, f: seq<Failure>, nextRunAt: Time, at: Time,
                                        recorded: Time)
    requires Holds(s, at, w, j, f, Routine([j], Finalising(MarkRetrying("", nextRunAt), at)))
    requires at <= recorded && LeaseOwned(j, recorded, w)
    ensures Enabled(s, recorded, Finalise(w, false, "", recorded))
    ensures Holds(Step(s, recorded, Finalise(w, false, "", recorded)), recorded, w,
                  Updated(j, MarkRetrying("", nextRunAt), recorded), f + [Failure(at, recorded)], IDLE)
  {
    hide StoresValid; hide LeaseOwned; hide Updated; hide NewFailures;
    UpdateKeepsIdentity(j, MarkRetrying("", nextRunAt), recorded);
    RecordTick(s, w, j, f, nextRunAt, at, recorded);
  }

  lemma {:induction false} RecordTick(s: System, w: string, j: SyncJob, f: seq<Failure>, nextRunAt: Time, at: Time,
                                      recorded: Time)
    requires Holds(s, at, w, j, f, Routine([j], Finalising(MarkRetrying("", nextRunAt), at)))
    requires at <= recorded && LeaseOwned(j, recorded, w)
    ensures NewFailures(s, recorded, Finalise(w, false, "", recorded), ID) == [Failure(at, recorded)]
  {
    hide StoresValid; hide LeaseOwned;
  }

  lemma {:induction false} FailedTryRuns(s: System, w: string, j: SyncJob, f: seq<Failure>, at: Time, recorded: Time)
    requires Holds(s, s.now, w, j, f, IDLE) && s.now <= at <= recorded && Claimable(j, at, SYNC)
    requires j.attemptCount + 1 < j.maxAttempts
    ensures Legal(s, FailedTry(w, at, recorded))
    ensures var j' := Claimed(j, w, at, recorded + SECOND);
      Holds(Run(s, FailedTry(w, at, recorded)), recorded, w, Updated(j', FailOrRetry(j', "", at), recorded),
            f + [Failure(at, recorded)], IDLE)
  {
    hide StoresValid; hide Claimable; hide Step; hide Enabled; hide WorkerBackoff; hide Updated; hide RoutineOf;
    var run, j' := FailedTry(w, at, recorded), Claimed(j, w, at, recorded + SECOND);
    ClaimTick(s, w, j, f, at, LockFor(at, recorded));
    var s1 := Step(s, at, run[0].event);
    ProjectTick(s1, w, j', f, at);
    var s2 := Step(s1, at, run[1].event);
    DecideTick(s2, w, j', f, at);
    var s3 := Step(s2, at, run[2].event);
    FinaliseTick(s3, w, j', f, at + WorkerBackoff(j.attemptCount + 1), at, recorded);
    var s4 := Step(s3, recorded, run[3].event);
    assert run[1..][1..] == run[2..] && run[2..][1..] == run[3..] && run[3..][1..] == [];
    assert Legal(s3, run[3..]) && Run(s3, run[3..]) == s4;
    assert Legal(s2, run[2..]) && Run(s2, run[2..]) == s4;
    assert Legal(s1, run[1..]) && Run(s1, run[1..]) == s4;
  }

  function Empty(): System {
    var config := D.DeltaConfig(D.DEFAULT_MAX_ENQUEUE_BATCH_SIZE, (key: ProjectionKey) => Some(""));
    System(0, Stores(D.DeltaTable(config, 0, map[], map[]), JobTable(0, map[], map[])), map[], map[], map[], map[])
  }

  /** The first failure is decided at 1 s and recorded `delay` later, the second comes as soon as it can. */
  function First(delay: int): Failure {
    Failure(SECOND, SECOND + delay)
  }

  function Second(delay: int): Failure {
    Failure(NextFailure(First(delay), 1), NextFailure(First(delay), 1))
  }

  function DelayedRecord(delay: int): seq<Tick> {
    [Tick(SECOND, Env(Create(NewJobOf(5).(id := ""))))]
    + (FailedTry("w", SECOND, SECOND + delay) + FailedTry("w", Second(delay).decidedAt, Second(delay).recordedAt))
  }

  lemma {:induction false} CreateTick()
    ensures var s, e := Empty(), Env(Create(NewJobOf(5).(id := "")));
      && StoresValid(s.stores) && Enabled(s, SECOND, e)
      && var s1 := Step(s, SECOND, e);
         Holds(s1, SECOND, "w", CREATED, [], IDLE)
  {
    hide StoresValid; hide FirstFree; hide RoutineAfter;
    EmptyIsValid();
    var t := Empty().stores.jobs;
    NextIsFree(JOB, 0, t.jobs.Keys);
    assert Name(JOB, 1) == ID;
  }

  lemma EmptyIsValid()
    ensures StoresValid(Empty().stores) && FreshAbove(JOB, 0, Empty().stores.jobs.jobs.Keys)
  {
  }

  /** The job as created, and as its first failure leaves it. */
  const CREATED: SyncJob := NewJobOf(5).(availableAt := SECOND, createdAt := SECOND, updatedAt := SECOND)

  function FailedOnce(delay: int): SyncJob {
    var j := Claimed(CREATED, "w", SECOND, SECOND + delay + SECOND);
    Updated(j, FailOrRetry(j, "", SECOND), SECOND + delay)
  }

  lemma BothAreClaimable(delay: int)
    requires delay >= 0
    ensures Claimable(CREATED, SECOND, SYNC) && CREATED.attemptCount == 0 && CREATED.maxAttempts == 5
    ensures Claimable(FailedOnce(delay), Second(delay).decidedAt, SYNC)
    ensures FailedOnce(delay).attemptCount == 1 && FailedOnce(delay).maxAttempts == 5
  {
  }

  /** The bounds of `FailuresKeepTheirDistance` are attained for every delay of the first record: some run has its
      second failure decided and recorded at the earliest instant they allow. So the records are the backoff less
      the delay apart, and after a delay longer than the backoff not apart at all. */
  lemma {:induction false} DelayedRecordComesCloser(delay: int)
    requires delay >= 0
    ensures var s := Empty();
      && Initial(s) && StoresValid(s.stores) && Legal(s, DelayedRecord(delay))
      && var s' := Run(s, DelayedRecord(delay));
         && ID in s'.failures
         && s'.failures[ID] == [First(delay), Second(delay)]
         && s'.failures[ID][1].recordedAt - s'.failures[ID][0].recordedAt
            == if delay <= 5_000_000_000 then 5_000_000_000 - delay else 0
  {
    hide StoresValid; hide Step; hide Enabled; hide Claimed; hide Updated; hide FailOrRetry; hide Claimable;
    hide FailedTry; hide RoutineOf;
    var s := Empty();
    EmptyIsValid();
    CreateTick();
    BothAreClaimable(delay);
    var e, at := Env(Create(NewJobOf(5).(id := ""))), Second(delay).decidedAt;
    var s1 := Step(s, SECOND, e);
    var first, second := FailedTry("w", SECOND, SECOND + delay), FailedTry("w", at, at);
    FailedTryRuns(s1, "w", CREATED, [], SECOND, SECOND + delay);
    FailedTryRuns(Run(s1, first), "w", FailedOnce(delay), [] + [First(delay)], at, at);
    RunThen(s1, first, second);
    var run := DelayedRecord(delay);
    assert run[0] == Tick(SECOND, e) && run[1..] == first + second;
  }
}
