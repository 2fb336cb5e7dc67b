/** What every run of the worker protocol keeps, whoever interleaves with whom: attempts are bounded
    although they are decided from stale snapshots, and failures keep their backoff distance. */
module Attempts {
  import opened Types
  import opened Jobs
  import opened Dispatch
  import opened Runs
  import opened Protocol
  import C = Claims
  import D = Deltas

  /** The earliest instant at which a failure can be decided after failure n: its backoff counts from its decision,
      and the job is not free again before its record. */
  function NextFailure(last: Failure, n: int): (due: Time)
    ensures due >= last.decidedAt + WorkerBackoff(n) && due >= last.recordedAt
  {
    if last.decidedAt + WorkerBackoff(n) >= last.recordedAt then last.decidedAt + WorkerBackoff(n) else last.recordedAt
  }

  function Due(f: seq<Failure>): Time
    requires f != []
  {
    NextFailure(f[|f| - 1], |f|)
  }

  predicate Spaced(f: seq<Failure>) {
    && (forall k | 0 <= k < |f| :: f[k].decidedAt <= f[k].recordedAt)
    && (forall k | 1 <= k < |f| :: f[k].decidedAt >= NextFailure(f[k - 1], k))
  }

  predicate JobInv(j: SyncJob, f: seq<Failure>, now: Time) {
    && |f| == j.attemptCount
    && (Live(j) || Terminal(j))
    && (if j.state.Dead? then j.attemptCount == j.maxAttempts else j.attemptCount < j.maxAttempts)
    && (!j.state.Processing? ==> j.lockedBy.None?)
    && (j.state.Dead? ==> f != [] && j.deadAt == Some(f[|f| - 1].recordedAt))
    && Spaced(f)
    && (Live(j) && f != [] ==> now >= Due(f) || (!j.state.Processing? && j.availableAt >= Due(f)))
  }

  /** While a routine owns a job, its snapshot is up to date in what it decides from. */
  predicate SnapshotInv(snapshot: SyncJob, j: SyncJob, r: string) {
    SameIdentity(snapshot, j) && (j.lockedBy == Some(r) ==> j.attemptCount == snapshot.attemptCount)
  }

  predicate PhaseInv(phase: Phase, snapshot: SyncJob, j: SyncJob, f: seq<Failure>, r: string, now: Time) {
    phase.Finalising? ==>
      var u := phase.update;
      && (u.MarkSynced? || ((u.MarkDead? || u.MarkRetrying?) && u == FailOrRetry(snapshot, u.error, phase.readAt)))
      && phase.readAt <= now
      && (j.lockedBy == Some(r) && f != [] ==> phase.readAt >= Due(f))
  }

  ghost predicate RoutineInv(s: System, r: string)
    requires s.failures.Keys == s.stores.jobs.jobs.Keys
  {
    var rt := RoutineOf(s, r);
    && (forall k | 0 <= k < |rt.jobs| ::
          && rt.jobs[k].id in s.stores.jobs.jobs
          && SnapshotInv(rt.jobs[k], s.stores.jobs.jobs[rt.jobs[k].id], r))
    && (rt.jobs != [] ==>
          PhaseInv(rt.phase, rt.jobs[0], s.stores.jobs.jobs[rt.jobs[0].id], s.failures[rt.jobs[0].id], r, s.now))
  }

  ghost predicate Inv(s: System) {
    && StoresValid(s.stores)
    && s.failures.Keys == s.stores.jobs.jobs.Keys
    && (forall id | id in s.stores.jobs.jobs :: JobInv(s.stores.jobs.jobs[id], s.failures[id], s.now))
    && (forall r :: RoutineInv(s, r))
  }

  lemma InvStores(s: System)
    requires Inv(s)
    ensures StoresValid(s.stores) && s.failures.Keys == s.stores.jobs.jobs.Keys
  {
  }

  lemma InvJob(s: System, id: string)
    requires Inv(s) && id in s.stores.jobs.jobs
    ensures id in s.failures && JobInv(s.stores.jobs.jobs[id], s.failures[id], s.now)
  {
    hide StoresValid; hide JobInv; hide RoutineInv;
  }

  lemma InvRoutine(s: System, r: string)
    requires Inv(s)
    ensures s.failures.Keys == s.stores.jobs.jobs.Keys && RoutineInv(s, r)
  {
    hide StoresValid; hide JobInv; hide RoutineInv; hide RoutineOf;
  }

  lemma InitialInv(s: System)
    requires Initial(s)
    ensures Inv(s)
  {
  }

  // ----- New jobs -----

  predicate NewlyCreated(j: SyncJob) {
    j.state.Pending? && j.attemptCount == 0 && j.maxAttempts > 0 && j.lockedBy.None? && j.lockedUntil.None?
  }

  lemma {:induction false} NewOutboxJob(st: Stores, syncID: string, limit: int, now: Time, id: string)
    requires StoresValid(st) && id in AfterDispatch(st, syncID, limit, now).jobs.jobs && id !in st.jobs.jobs
    ensures exists d: Delta :: AfterDispatch(st, syncID, limit, now).jobs.jobs[id] == NewJob(d, id, now)
  {
    hide NewJob; hide StoresValid;
    var q := Selection(st, syncID, limit);
    SelectionIsDistinct(st, syncID, limit);
    DispatchAllCopiesIdentity(st, q, now);
  }

  lemma {:induction false} ClaimsAddNoJobs(t: JobTable, syncID: string, workerID: string, limit: nat, now: Time,
                                           until: Time)
    requires JobsValid(t)
    ensures AfterBatch(t, syncID, workerID, limit, now, until).jobs.Keys == t.jobs.Keys
  {
    hide Claimable; hide BatchOf;
    C.BatchIsLeased(t, syncID, workerID, limit, now, until);
  }

  lemma {:induction false} OnlyCreationAdds(st: Stores, c: Call, now: Time, st': Stores, id: string)
    requires StoresValid(st) && JobsValid(st.jobs) && st' == Do(st, c, now)
    requires id in st'.jobs.jobs && id !in st.jobs.jobs
    ensures c.Create? || c.DispatchPending?
    ensures c.Create? ==> st'.jobs.jobs[id] == Normalised(c.job, id, now)
    ensures c.DispatchPending? ==> exists d: Delta :: st'.jobs.jobs[id] == NewJob(d, id, now)
  {
    hide AfterBatch; hide StoresValid; hide JobsValid; hide AfterDispatch; hide NewJob; hide D.AfterBatch;
    hide D.AfterEnqueue; hide Updated; hide Operated; hide TrimSpace;
    match c
    case DispatchPending(syncID, limit) => NewOutboxJob(st, syncID, limit, now, id);
    case Claim(r, syncID, limit, lockFor) =>
      if limit > 0 { ClaimsAddNoJobs(st.jobs, syncID, r, limit, now, now + lockFor); }
    case _ =>
  }

  /** The jobs an event adds are fresh. */
  lemma {:induction false} NewJobsAreFresh(s: System, at: Time, e: Event, id: string)
    requires StoresValid(s.stores) && Enabled(s, at, e)
    requires id in StoresAfter(s, at, e).jobs.jobs && id !in s.stores.jobs.jobs
    ensures e.Env? && NewlyCreated(StoresAfter(s, at, e).jobs.jobs[id])
  {
    hide Do; hide JobsValid; hide BatchOf;
    OnlyCreationAdds(s.stores, CallOf(s, at, e).value, at, StoresAfter(s, at, e), id);
  }

  // ----- One job through one event -----

  lemma {:induction false} StoredJobChanges(s: System, at: Time, e: Event, id: string)
    requires StoresValid(s.stores) && Enabled(s, at, e) && id in s.stores.jobs.jobs
    ensures id in StoresAfter(s, at, e).jobs.jobs
    ensures match CallOf(s, at, e)
      case None => StoresAfter(s, at, e).jobs.jobs[id] == s.stores.jobs.jobs[id]
      case Some(c) => Change(c, id, s.stores.jobs.jobs[id], StoresAfter(s, at, e).jobs.jobs[id], at)
  {
    hide Do; hide StoresValid; hide Change;
    if CallOf(s, at, e).Some? { EveryChange(s.stores, CallOf(s, at, e).value, at, id); }
  }

  /** A change that is not an accepted finalise keeps the attempt count. */
  lemma QuietChange(c: Call, id: string, j: SyncJob, j': SyncJob, f: seq<Failure>, now: Time, at: Time)
    requires JobInv(j, f, now) && at >= now && Change(c, id, j, j', at)
    requires c.Update? ==> c.update.RenewLease? || c.update.RequeueClaimed?
    ensures JobInv(j', f, at)
  {
    hide Operated; hide Updated; hide WorkerBackoff; hide Spaced;
    if c.Update? && j' != j { QuietUpdate(j, c.update, f, now, at); }
    if c.Operate? && j' != j { QuietOperation(j, c.op, f, now, at); }
  }

  lemma QuietUpdate(j: SyncJob, u: LeaseUpdate, f: seq<Failure>, now: Time, at: Time)
    requires JobInv(j, f, now) && at >= now && j.state.Processing? && (u.RenewLease? || u.RequeueClaimed?)
    ensures JobInv(Updated(j, u, at), f, at)
  {
    hide WorkerBackoff; hide Spaced;
  }

  lemma QuietOperation(j: SyncJob, op: OperatorAction, f: seq<Failure>, now: Time, at: Time)
    requires JobInv(j, f, now) && at >= now && j.state.Processing?
    ensures JobInv(Operated(j, op, at), f, at)
  {
    hide TrimSpace; hide Blank; hide WorkerBackoff; hide Spaced;
  }

  lemma OneMoreFailure(f: seq<Failure>, next: Failure)
    requires Spaced(f) && next.decidedAt <= next.recordedAt && (f != [] ==> next.decidedAt >= Due(f))
    ensures Spaced(f + [next])
  {
    hide NextFailure;
    var f' := f + [next];
    assert f'[|f|] == next && forall k | 0 <= k < |f| :: f'[k] == f[k];
  }

  /** An accepted finalise by a routine that owns the job. */
  lemma FinalisedChange(j: SyncJob, u: LeaseUpdate, snapshot: SyncJob, readAt: Time, r: string,
                        f: seq<Failure>, f': seq<Failure>, now: Time, at: Time)
    requires JobInv(j, f, now) && at >= now && LeaseOwned(j, at, r)
    requires SnapshotInv(snapshot, j, r) && PhaseInv(Finalising(u, readAt), snapshot, j, f, r, now)
    requires f' == f + (if u.MarkRetrying? || u.MarkDead? then [Failure(readAt, at)] else [])
    ensures JobInv(Updated(j, u, at), f', at)
  {
    hide WorkerBackoff; hide Spaced;
    if f' != f { OneMoreFailure(f, Failure(readAt, at)); }
  }

  ghost predicate Finalises(s: System, at: Time, e: Event, id: string)
    requires StoresValid(s.stores) && Enabled(s, at, e)
  {
    Finalised(s, at, e) && RoutineOf(s, e.routine).jobs[0].id == id
  }

  lemma {:induction false} OtherwiseQuiet(s: System, at: Time, e: Event, id: string)
    requires StoresValid(s.stores) && Enabled(s, at, e) && id in s.stores.jobs.jobs && !Finalises(s, at, e, id)
    ensures id in StoresAfter(s, at, e).jobs.jobs
    ensures var j, j' := s.stores.jobs.jobs[id], StoresAfter(s, at, e).jobs.jobs[id];
      || j' == j
      || exists c :: CallOf(s, at, e) == Some(c) && Change(c, id, j, j', at)
                     && (c.Update? ==> c.update.RenewLease? || c.update.RequeueClaimed?)
    ensures NewFailures(s, at, e, id) == []
  {
    hide StoresValid; hide AfterBatch; hide BatchOf; hide AfterDispatch; hide D.AfterBatch; hide D.AfterEnqueue;
    hide AfterOperator; hide AfterCreate; hide Updated;
    StoredJobChanges(s, at, e, id);
  }

  lemma {:induction false} JobStep(s: System, at: Time, e: Event, id: string)
    requires Inv(s) && Enabled(s, at, e) && id in s.stores.jobs.jobs
    ensures var s' := Step(s, at, e);
      id in s'.stores.jobs.jobs && JobInv(s'.stores.jobs.jobs[id], s'.failures[id], at)
  {
    hide Inv; hide StoresValid; hide JobInv; hide StoresAfter; hide Change; hide CallOf; hide NewFailures;
    hide RoutineInv;
    InvStores(s);
    InvJob(s, id);
    var j, f := s.stores.jobs.jobs[id], s.failures[id];
    if Finalises(s, at, e, id) {
      InvRoutine(s, e.routine);
      FinaliseStep(s, at, e, id);
    } else {
      OtherwiseQuiet(s, at, e, id);
      assert f + [] == f;
      StaysValid(j, f, s.now, at);
      var j' := StoresAfter(s, at, e).jobs.jobs[id];
      if j' != j {
        var c :| CallOf(s, at, e) == Some(c) && Change(c, id, j, j', at)
                 && (c.Update? ==> c.update.RenewLease? || c.update.RequeueClaimed?);
        QuietChange(c, id, j, j', f, s.now, at);
      }
    }
  }

  lemma StaysValid(j: SyncJob, f: seq<Failure>, now: Time, at: Time)
    requires JobInv(j, f, now) && at >= now
    ensures JobInv(j, f, at)
  {
  }

  lemma {:induction false} FinaliseStep(s: System, at: Time, e: Event, id: string)
    requires StoresValid(s.stores) && Enabled(s, at, e) && Finalises(s, at, e, id)
    requires s.failures.Keys == s.stores.jobs.jobs.Keys
    requires id in s.stores.jobs.jobs && JobInv(s.stores.jobs.jobs[id], s.failures[id], s.now)
    requires RoutineInv(s, e.routine)
    ensures var s' := Step(s, at, e);
      id in s'.stores.jobs.jobs && JobInv(s'.stores.jobs.jobs[id], s'.failures[id], at)
  {
    hide StoresValid; hide JobInv; hide SnapshotInv; hide PhaseInv; hide Updated; hide LeaseOwned;
    var rt, f := RoutineOf(s, e.routine), s.failures[id];
    FinalisedChange(s.stores.jobs.jobs[id], rt.phase.update, rt.jobs[0], rt.phase.readAt, e.routine, f,
                    f + NewFailures(s, at, e, id), s.now, at);
  }

  // ----- One routine through one event -----

  predicate Acts(e: Event, r: string) {
    !e.Env? && !e.ChangeSource? && e.routine == r
  }

  lemma UpdateUnlocksOrRenews(j: SyncJob, u: LeaseUpdate, at: Time)
    ensures var j' := Updated(j, u, at);
      j'.lockedBy.None? || (j'.lockedBy == j.lockedBy && j'.attemptCount == j.attemptCount)
  {
  }

  lemma OperatorUnlocks(j: SyncJob, op: OperatorAction, at: Time)
    ensures Operated(j, op, at).lockedBy.None?
  {
  }

  /** Nobody else's call can leave a job locked by r with another attempt count. */
  lemma SnapshotSurvives(c: Call, id: string, snapshot: SyncJob, j: SyncJob, j': SyncJob, r: string, at: Time)
    requires SnapshotInv(snapshot, j, r) && Change(c, id, j, j', at)
    requires j' == j || !(c.Claim? && c.workerID == r)
    ensures SnapshotInv(snapshot, j', r)
    ensures j'.lockedBy == Some(r) ==> j'.attemptCount == j.attemptCount && j.lockedBy == Some(r)
  {
    hide TrimSpace; hide Claimable; hide LeaseExpired; hide LeaseOwned; hide SameIdentity; hide Updated; hide Operated;
    ChangeKeepsIdentity(c, id, j, j', at);
    IdentityIsTransitive(snapshot, j, j');
    if c.Update? { UpdateUnlocksOrRenews(j, c.update, at); }
    if c.Operate? { OperatorUnlocks(j, c.op, at); }
  }

  lemma IdentityIsTransitive(a: SyncJob, b: SyncJob, c: SyncJob)
    requires SameIdentity(a, b) && SameIdentity(b, c)
    ensures SameIdentity(a, c)
  {
  }

  /** Exactly when a claim leaves the snapshots a routine already holds up to date: no job it claims again has
      recorded a failure since the held snapshot. */
  lemma {:induction false} ClaimKeepsSnapshots(t: JobTable, syncID: string, r: string, limit: nat, at: Time,
                                               until: Time, held: seq<SyncJob>)
    requires JobsValid(t)
    requires forall k | 0 <= k < |held| :: held[k].id in t.jobs && SnapshotInv(held[k], t.jobs[held[k].id], r)
    ensures var after := AfterBatch(t, syncID, r, limit, at, until).jobs;
      (forall k | 0 <= k < |held| :: held[k].id in after && SnapshotInv(held[k], after[held[k].id], r))
      <==> Current(BatchOf(t, syncID, r, limit, at, until), held)
  {
    hide Mapped; hide Keyed; hide BatchOf; hide AfterBatch; hide Claimable; hide SnapshotInv;
    var batch, after := BatchOf(t, syncID, r, limit, at, until), AfterBatch(t, syncID, r, limit, at, until).jobs;
    forall k | 0 <= k < |held|
      ensures held[k].id in after
      ensures SnapshotInv(held[k], after[held[k].id], r) <==> NoFailureSince(held[k], batch)
    {
      ClaimKeepsSnapshot(t, syncID, r, limit, at, until, held[k]);
    }
  }

  lemma ClaimedIsSame(j: SyncJob, w: string, now: Time, until: Time)
    ensures var j' := Claimed(j, w, now, until);
      SameIdentity(j, j') && j'.attemptCount == j.attemptCount && j'.lockedBy == Some(w)
  {
  }

  lemma {:induction false} ClaimKeepsSnapshot(t: JobTable, syncID: string, r: string, limit: nat, at: Time,
                                              until: Time, snapshot: SyncJob)
    requires JobsValid(t) && snapshot.id in t.jobs && SnapshotInv(snapshot, t.jobs[snapshot.id], r)
    ensures var after := AfterBatch(t, syncID, r, limit, at, until).jobs;
      && snapshot.id in after
      && (SnapshotInv(snapshot, after[snapshot.id], r)
          <==> NoFailureSince(snapshot, BatchOf(t, syncID, r, limit, at, until)))
  {
    hide Mapped; hide Keyed; hide BatchOf; hide AfterBatch; hide Claimable; hide SameIdentity;
    var batch := BatchOf(t, syncID, r, limit, at, until);
    ClaimChange(t, syncID, r, limit, at, until, snapshot.id);
    C.BatchIsLeased(t, syncID, r, limit, at, until);
    ClaimedIsSame(t.jobs[snapshot.id], r, at, until);
    IdentityIsTransitive(snapshot, t.jobs[snapshot.id], Claimed(t.jobs[snapshot.id], r, at, until));
  }

  /** A routine claims for itself only. */
  lemma {:induction false} ClaimsAreOwn(s: System, at: Time, e: Event)
    requires StoresValid(s.stores) && Enabled(s, at, e)
    ensures var c := CallOf(s, at, e);
      c.Some? && c.value.Claim? ==> e.ClaimJobs? && c.value.workerID == e.routine
  {
    hide StoresValid; hide BatchOf;
  }

  lemma {:induction false} HeldSnapshotsStayCurrent(s: System, at: Time, e: Event, r: string)
    requires StoresValid(s.stores) && s.failures.Keys == s.stores.jobs.jobs.Keys && RoutineInv(s, r)
    requires Enabled(s, at, e) && e.ClaimJobs? && e.routine == r
    ensures var held, jobs' := RoutineOf(s, r).jobs, StoresAfter(s, at, e).jobs.jobs;
      forall k | 0 <= k < |held| :: held[k].id in jobs' && SnapshotInv(held[k], jobs'[held[k].id], r)
  {
    hide JobsValid; hide BatchOf; hide AfterBatch; hide SnapshotInv; hide PhaseInv;
    ClaimKeepsSnapshots(s.stores.jobs, e.syncID, r, e.limit, at, at + e.lockFor, RoutineOf(s, r).jobs);
  }

  lemma {:induction false} SnapshotStep(s: System, at: Time, e: Event, r: string, k: nat)
    requires StoresValid(s.stores) && s.failures.Keys == s.stores.jobs.jobs.Keys && RoutineInv(s, r)
    requires Enabled(s, at, e)
    requires k < |RoutineOf(s, r).jobs|
    ensures var snapshot, jobs, jobs' := RoutineOf(s, r).jobs[k], s.stores.jobs.jobs, Step(s, at, e).stores.jobs.jobs;
      && snapshot.id in jobs && snapshot.id in jobs' && SnapshotInv(snapshot, jobs'[snapshot.id], r)
      && (!(e.ClaimJobs? && e.routine == r) && jobs'[snapshot.id].lockedBy == Some(r) ==>
            jobs[snapshot.id].lockedBy == Some(r)
            && jobs[snapshot.id].attemptCount == jobs'[snapshot.id].attemptCount)
  {
    hide StoresValid; hide Change; hide SnapshotInv; hide Enabled; hide StoresAfter; hide RoutineAfter;
    hide NewFailures; hide PhaseInv;
    var snapshot := RoutineOf(s, r).jobs[k];
    var id := snapshot.id;
    assert id in s.stores.jobs.jobs && SnapshotInv(snapshot, s.stores.jobs.jobs[id], r);
    if e.ClaimJobs? && e.routine == r {
      HeldSnapshotsStayCurrent(s, at, e, r);
      return;
    }
    StoredJobChanges(s, at, e, id);
    var c := CallOf(s, at, e);
    ClaimsAreOwn(s, at, e);
    if c.Some? {
      SnapshotSurvives(c.value, id, snapshot, s.stores.jobs.jobs[id], StoresAfter(s, at, e).jobs.jobs[id], r, at);
    }
  }

  /** A decision taken stays right until the store has answered it. */
  lemma {:induction false} PhaseStep(s: System, at: Time, e: Event, r: string)
    requires Inv(s) && Enabled(s, at, e)
    requires !Acts(e, r) || e.Heartbeat?
    requires RoutineOf(s, r).jobs != []
    ensures var rt, s' := RoutineOf(s, r), Step(s, at, e);
      && rt.jobs[0].id in s'.stores.jobs.jobs && rt.jobs[0].id in s'.failures
      && PhaseInv(rt.phase, rt.jobs[0], s'.stores.jobs.jobs[rt.jobs[0].id], s'.failures[rt.jobs[0].id], r, at)
  {
    hide Inv; hide StoresValid; hide StoresAfter; hide NewFailures; hide Spaced; hide Due; hide FailOrRetry;
    hide SnapshotInv;
    InvStores(s);
    InvRoutine(s, r);
    var rt, s' := RoutineOf(s, r), Step(s, at, e);
    var id := rt.jobs[0].id;
    SnapshotStep(s, at, e, r, 0);
    JobStep(s, at, e, id);
    var f, f' := s.failures[id], s'.failures[id];
    InvJob(s, id);
    assert f' == f + NewFailures(s, at, e, id);
    assert |f'| == s'.stores.jobs.jobs[id].attemptCount;
    if s'.stores.jobs.jobs[id].lockedBy == Some(r) {
      assert |f'| == |f| && f' == f;
    }
  }

  lemma DecisionIsSound(snapshot: SyncJob, phase: Phase, heartbeatFailed: bool, error: string,
                        j: SyncJob, f: seq<Failure>, r: string, now: Time, at: Time)
    requires phase == Projected(Broken) || phase.Applied?
    requires JobInv(j, f, now) && at >= now
    ensures PhaseInv(Finalising(Decision(snapshot, phase, heartbeatFailed, error, at), at), snapshot, j, f, r, at)
  {
    hide Spaced; hide WorkerBackoff;
  }

  lemma {:induction false} OwnStepKeepsPhase(s: System, at: Time, e: Event, r: string)
    requires Inv(s) && Enabled(s, at, e) && Acts(e, r) && !e.Heartbeat?
    requires RoutineAfter(s, at, e, r).jobs != [] && RoutineAfter(s, at, e, r).jobs[0].id in s.stores.jobs.jobs
    ensures var rt, s' := RoutineAfter(s, at, e, r), Step(s, at, e);
      && rt.jobs[0].id in s'.stores.jobs.jobs && rt.jobs[0].id in s'.failures
      && PhaseInv(rt.phase, rt.jobs[0], s'.stores.jobs.jobs[rt.jobs[0].id], s'.failures[rt.jobs[0].id], r, at)
  {
    hide StoresValid; hide JobInv; hide Decision; hide SnapshotInv;
    var rt := RoutineAfter(s, at, e, r);
    var id := rt.jobs[0].id;
    JobStep(s, at, e, id);
    if e.Decide? {
      assert JobInv(s.stores.jobs.jobs[id], s.failures[id], s.now);
      DecisionIsSound(rt.jobs[0], RoutineOf(s, r).phase, e.heartbeatFailed, e.error, s.stores.jobs.jobs[id],
                      s.failures[id], r, s.now, at);
      assert s.failures[id] + [] == s.failures[id];
    }
  }

  /** The jobs a claim adds to a routine are exact copies of the stored ones. */
  lemma {:induction false} ClaimedSnapshots(s: System, at: Time, e: Event, r: string)
    requires StoresValid(s.stores) && Enabled(s, at, e) && e.ClaimJobs? && e.routine == r
    ensures var batch, jobs' := BatchOf(s.stores.jobs, e.syncID, r, e.limit, at, at + e.lockFor),
                                StoresAfter(s, at, e).jobs.jobs;
      && (forall i | 0 <= i < |batch| ::
            batch[i].id in s.stores.jobs.jobs && batch[i].id in jobs' && jobs'[batch[i].id] == batch[i])
  {
    hide BatchOf; hide AfterBatch; hide Claimable; hide Current;
    var t, until := s.stores.jobs, at + e.lockFor;
    C.BatchIsLeased(t, e.syncID, r, e.limit, at, until);
  }

  /** Every job a routine holds afterwards was held before or has just been claimed. */
  lemma {:induction false} JobsHeldAfter(s: System, at: Time, e: Event, r: string)
    requires StoresValid(s.stores) && Enabled(s, at, e)
    ensures var held, held' := RoutineOf(s, r).jobs, RoutineAfter(s, at, e, r).jobs;
      && (e.ClaimJobs? && e.routine == r ==>
            held' == held + BatchOf(s.stores.jobs, e.syncID, r, e.limit, at, at + e.lockFor))
      && (!(e.ClaimJobs? && e.routine == r) ==> |held'| <= |held| && held' == held[|held| - |held'|..])
  {
    hide BatchOf; hide StoresValid; hide StoresAfter; hide ProjectFrom; hide Decision; hide Finalised; hide Current;
  }

  lemma {:induction false} RoutineIsAfter(s: System, at: Time, e: Event, r: string)
    requires StoresValid(s.stores) && Enabled(s, at, e)
    ensures RoutineOf(Step(s, at, e), r) == RoutineAfter(s, at, e, r)
    ensures !Acts(e, r) || e.Heartbeat? ==> RoutineAfter(s, at, e, r) == RoutineOf(s, r)
  {
    hide StoresValid; hide StoresAfter;
  }

  lemma {:induction false} RoutineStep(s: System, at: Time, e: Event, r: string)
    requires Inv(s) && Enabled(s, at, e)
    requires Step(s, at, e).failures.Keys == Step(s, at, e).stores.jobs.jobs.Keys
    ensures RoutineInv(Step(s, at, e), r)
  {
    hide Inv; hide StoresValid; hide StoresAfter; hide PhaseInv; hide SnapshotInv; hide BatchOf; hide RoutineAfter;
    hide NewFailures; hide Acts;
    InvStores(s);
    InvRoutine(s, r);
    var s' := Step(s, at, e);
    var held, held' := RoutineOf(s, r).jobs, RoutineOf(s', r).jobs;
    RoutineIsAfter(s, at, e, r);
    JobsHeldAfter(s, at, e, r);
    forall k | 0 <= k < |held'|
      ensures held'[k].id in s.stores.jobs.jobs && held'[k].id in s'.stores.jobs.jobs
              && SnapshotInv(held'[k], s'.stores.jobs.jobs[held'[k].id], r)
    {
      HeldSnapshot(s, at, e, r, k);
    }
    if held' != [] {
      if !Acts(e, r) || e.Heartbeat? {
        PhaseStep(s, at, e, r);
      } else {
        OwnStepKeepsPhase(s, at, e, r);
      }
    }
  }

  lemma {:induction false} HeldSnapshot(s: System, at: Time, e: Event, r: string, k: nat)
    requires StoresValid(s.stores) && s.failures.Keys == s.stores.jobs.jobs.Keys && Enabled(s, at, e)
    requires RoutineInv(s, r)
    requires k < |RoutineAfter(s, at, e, r).jobs|
    ensures var snapshot, jobs' := RoutineAfter(s, at, e, r).jobs[k], Step(s, at, e).stores.jobs.jobs;
      && snapshot.id in s.stores.jobs.jobs && snapshot.id in jobs' && SnapshotInv(snapshot, jobs'[snapshot.id], r)
  {
    hide StoresValid; hide Enabled; hide RoutineAfter; hide BatchOf; hide StoresAfter; hide NewFailures;
    hide RoutineInv;
    var held, held' := RoutineOf(s, r).jobs, RoutineAfter(s, at, e, r).jobs;
    JobsHeldAfter(s, at, e, r);
    if e.ClaimJobs? && e.routine == r {
      if k < |held| { SnapshotStep(s, at, e, r, k); } else { ClaimedSnapshots(s, at, e, r); }
    } else {
      SnapshotStep(s, at, e, r, |held| - |held'| + k);
    }
  }

  // ----- The invariant over whole runs -----

  lemma {:induction false} StepInv(s: System, at: Time, e: Event)
    requires Inv(s) && Enabled(s, at, e)
    ensures Inv(Step(s, at, e))
  {
    var s' := Step(s, at, e);
    forall id | id in s'.stores.jobs.jobs ensures JobInv(s'.stores.jobs.jobs[id], s'.failures[id], s'.now) {
      if id in s.stores.jobs.jobs { JobStep(s, at, e, id); } else { NewJobInv(s, at, e, id); }
    }
    forall r ensures RoutineInv(s', r) {
      RoutineStep(s, at, e, r);
    }
  }

  lemma {:induction false} NewJobInv(s: System, at: Time, e: Event, id: string)
    requires Inv(s) && Enabled(s, at, e)
    requires id in Step(s, at, e).stores.jobs.jobs && id !in s.stores.jobs.jobs
    ensures JobInv(Step(s, at, e).stores.jobs.jobs[id], Step(s, at, e).failures[id], at)
  {
    NewJobsAreFresh(s, at, e, id);
  }

  lemma {:induction false} RunInv(s: System, run: seq<Tick>)
    requires Inv(s) && Legal(s, run)
    ensures Inv(Run(s, run))
    decreases |run|
  {
    assert StoresValid(s.stores);
    hide Inv; hide Enabled; hide Step;
    if run != [] {
      StepInv(s, run[0].at, run[0].event);
      RunInv(Step(s, run[0].at, run[0].event), run[1..]);
    }
  }

  // ----- What it means -----

  /** In every run from empty stores: an attempt count is the number of failures recorded, a live or
      synced job has recorded fewer failures than its maximum, and a dead job exactly its maximum. */
  lemma {:induction false} AttemptsAreBounded(s: System, run: seq<Tick>, id: string)
    requires Initial(s) && StoresValid(s.stores) && Legal(s, run) && id in Run(s, run).stores.jobs.jobs
    ensures var s' := Run(s, run);
      var j := s'.stores.jobs.jobs[id];
      && id in s'.failures && |s'.failures[id]| == j.attemptCount <= j.maxAttempts
      && (j.attemptCount == j.maxAttempts <==> j.state.Dead?)
  {
    InitialInv(s);
    RunInv(s, run);
    assert JobInv(Run(s, run).stores.jobs.jobs[id], Run(s, run).failures[id], Run(s, run).now);
  }

  /** Whatever reclaims and requeues interleave, a routine that owns a job decides from its true attempt count. */
  lemma {:induction false} OwnerSnapshotIsCurrent(s: System, run: seq<Tick>, r: string, k: nat)
    requires Initial(s) && StoresValid(s.stores) && Legal(s, run) && k < |RoutineOf(Run(s, run), r).jobs|
    ensures var s' := Run(s, run);
      var snapshot := RoutineOf(s', r).jobs[k];
      && snapshot.id in s'.stores.jobs.jobs
      && (s'.stores.jobs.jobs[snapshot.id].lockedBy == Some(r) ==>
            s'.stores.jobs.jobs[snapshot.id].attemptCount == snapshot.attemptCount)
  {
    InitialInv(s);
    RunInv(s, run);
    assert RoutineInv(Run(s, run), r);
  }

  /** backoff(1) + ... + backoff(n) */
  function TotalBackoff(n: nat): int {
    if n == 0 then 0 else TotalBackoff(n - 1) + WorkerBackoff(n)
  }

  /** The sum in nanoseconds: 5, 35, 155 and 455 s for n = 1 to 4, and 300 s more for each further n. */
  lemma {:induction false} TotalInSeconds(n: nat)
    ensures TotalBackoff(n) == if n == 0 then 0 else if n == 1 then 5_000_000_000 else if n == 2 then 35_000_000_000
                               else 155_000_000_000 + 300_000_000_000 * (n - 3)
  {
    if n > 0 { TotalInSeconds(n - 1); }
  }

  lemma {:induction false} SpacedApart(f: seq<Failure>, k: nat)
    requires Spaced(f) && k < |f|
    ensures f[k].decidedAt >= f[0].decidedAt + TotalBackoff(k)
  {
    hide WorkerBackoff;
    if k > 0 { SpacedApart(f, k - 1); }
  }

  /** Failure k + 1 of a job is decided at least 5, 35, 155 and 455 s after its first for k = 1 to 4, 300 s more for
      each further k; that is 5, 30, 120 and from then on 300 s after the one before it, and no earlier than the
      store records that one. As the store records them, it comes that much after the first, less the delay with
      which the first was recorded. */
  lemma {:induction false} FailuresKeepTheirDistance(s: System, run: seq<Tick>, id: string, k: nat)
    requires Initial(s) && StoresValid(s.stores) && Legal(s, run) && id in Run(s, run).failures
    requires k < |Run(s, run).failures[id]|
    ensures var f := Run(s, run).failures[id];
      var least := if k == 0 then 0 else if k == 1 then 5_000_000_000 else if k == 2 then 35_000_000_000
                   else 155_000_000_000 + 300_000_000_000 * (k - 3);
      && f[k].decidedAt >= f[0].decidedAt + least
      && f[k].recordedAt >= f[0].recordedAt + least - (f[0].recordedAt - f[0].decidedAt)
      && (k > 0 ==>
            && f[k].decidedAt >= f[k - 1].decidedAt + (if k == 1 then 5_000_000_000 else if k == 2 then 30_000_000_000
                                                       else if k == 3 then 120_000_000_000 else 300_000_000_000)
            && f[k].recordedAt >= f[k].decidedAt >= f[k - 1].recordedAt >= f[k - 1].decidedAt)
  {
    InitialInv(s);
    RunInv(s, run);
    var f := Run(s, run).failures[id];
    assert JobInv(Run(s, run).stores.jobs.jobs[id], f, Run(s, run).now);
    SpacedApart(f, k);
    TotalInSeconds(k);
    assert k > 0 ==> f[k].decidedAt >= NextFailure(f[k - 1], k);
  }

  /** A job with the default five attempts is not dead before 455 s after its first failure. */
  lemma {:induction false} FiveAttemptsTakeTime(s: System, run: seq<Tick>, id: string)
    requires Initial(s) && StoresValid(s.stores) && Legal(s, run) && id in Run(s, run).stores.jobs.jobs
    requires Run(s, run).stores.jobs.jobs[id].state.Dead?
    requires Run(s, run).stores.jobs.jobs[id].maxAttempts == 5
    ensures id in Run(s, run).failures && |Run(s, run).failures[id]| == 5
    ensures Run(s, run).stores.jobs.jobs[id].deadAt.Some?
    ensures Run(s, run).stores.jobs.jobs[id].deadAt.value >= Run(s, run).failures[id][0].decidedAt + 455_000_000_000
  {
    AttemptsAreBounded(s, run, id);
    FailuresKeepTheirDistance(s, run, id, 4);
    InitialInv(s);
    RunInv(s, run);
    assert JobInv(Run(s, run).stores.jobs.jobs[id], Run(s, run).failures[id], Run(s, run).now);
  }
}
