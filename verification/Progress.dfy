/** The backlog can always be used up: from every state the protocol's invariant allows, whatever leases,
    backoffs, crashed routines and operators have left behind, one idle routine can drain it. */
module Progress {
  import opened Types
  import opened Ranks
  import opened Names
  import opened Jobs
  import opened Dispatch
  import opened Runs
  import opened Protocol
  import opened Attempts
  import opened Convergence
  import opened Drain
  import opened Worker
  import opened WorkerRuns
  import C = Claims
  import D = Deltas

  /** A pending delta can be dispatched at once. */
  lemma {:induction false} DeltaProgress(s: System, w: string, id: string) returns (run: seq<Tick>, s': System)
    requires StoresValid(s.stores) && id in s.stores.deltas.deltas && s.stores.deltas.deltas[id].state.DeltaPending?
    ensures Reaches(s, w, run, s', 1) && RoutineOf(s', w) == RoutineOf(s, w)
    ensures NoneDied(s.stores) ==> NoneDied(s'.stores)
  {
    hide Reaches; hide JobsValid; hide DispatchAll; hide Sorted; hide D.PendingRank; hide NoneDied;
    var d := s.stores.deltas.deltas[id];
    assert D.PendingRank(d) in D.PendingRanks(s.stores.deltas.deltas, d.syncID);
    var i := PositionOf(D.PendingRanks(s.stores.deltas.deltas, d.syncID), D.PendingRank(d));
    var e := Env(DispatchPending(d.syncID, 1));
    ReachesByStep(s, w, s.now, e);
    run, s' := [Tick(s.now, e)], Step(s, s.now, e);
    DispatchKillsNothing(s, s.now, e);
  }

  lemma {:induction false} DispatchKillsNothing(s: System, at: Time, e: Event)
    requires StoresValid(s.stores) && Enabled(s, at, e) && e.Env? && e.call.DispatchPending?
    ensures NoneDied(s.stores) ==> NoneDied(StoresAfter(s, at, e))
  {
    hide StoresValid; hide AfterDispatch; hide ForCustomer;
    var jobs, jobs' := s.stores.jobs.jobs, StoresAfter(s, at, e).jobs.jobs;
    forall id | id in jobs' && jobs'[id].state.Dead? ensures id in jobs && jobs'[id] == jobs[id] {
      if id in jobs { StoredJobChanges(s, at, e, id); } else { NewJobsAreFresh(s, at, e, id); }
    }
  }

  /** When a live job can be claimed: once it is due and no lease on it is left. */
  function DueAt(j: SyncJob, now: Time): Time {
    var due := if j.availableAt > now then j.availableAt else now;
    if j.lockedUntil.Some? && j.lockedUntil.value > due then j.lockedUntil.value else due
  }

  lemma DueIsClaimable(j: SyncJob, now: Time)
    requires Live(j)
    ensures DueAt(j, now) >= now && Claimable(j, DueAt(j, now), j.syncID)
  {
  }

  /** A claim finds a job whenever one can be claimed, leases it, and touches no other. */
  lemma SomethingIsClaimed(t: JobTable, syncID: string, w: string, now: Time, until: Time, id: string)
    requires Keyed(t.jobs) && id in t.jobs && Claimable(t.jobs[id], now, syncID) && now < until
    ensures var batch, after := BatchOf(t, syncID, w, 1, now, until), AfterBatch(t, syncID, w, 1, now, until).jobs;
      && |batch| == 1 && batch[0].id in t.jobs && LeaseOwned(batch[0], now, w)
      && after == t.jobs[batch[0].id := batch[0]]
  {
    hide Claimable; hide BatchOf; hide AfterBatch;
    assert ClaimRank(t.jobs[id]) in ClaimRanks(t.jobs, syncID, now);
    C.BatchIsAscending(t, syncID, w, 1, now, until);
    C.BatchIsLeased(t, syncID, w, 1, now, until);
    var batch := BatchOf(t, syncID, w, 1, now, until);
    forall other | other in t.jobs && other != batch[0].id
      ensures AfterBatch(t, syncID, w, 1, now, until).jobs[other] == t.jobs[other]
    {
      C.BatchTakesLeast(t, syncID, w, 1, now, until, other);
    }
  }

  /** A routine that is idle, whatever the others do. */
  ghost function FreshRoutine(s: System): (w: string)
    ensures RoutineOf(s, w) == IDLE
  {
    Name("routine-", FirstFree("routine-", 0, s.routines.Keys))
  }

  /** One undisturbed round: the projector and the applier answer, every call arrives in time. */
  function Undisturbed(at: Time): Round {
    Round(false, false, true, false, [], "", at, [], false, at)
  }

  /** It syncs a customer's job, whatever the source holds. */
  lemma CustomersJobIsSynced(j: SyncJob, h: Holder, source: map<string, Document>, at: Time, customer: string)
    requires LeaseOwned(j, at, h.workerID)
    ensures var j' := JobAfter(j, h, source, j, Undisturbed(at));
      && j'.projectionType == j.projectionType && j'.projectionKey == j.projectionKey
      && (ForCustomer(j.projectionType, j.projectionKey, customer) ==> j'.state.Synced?)
  {
    hide WorkerBackoff; hide LeaseOwned;
  }

  lemma RoundKillsNoCustomer(st: Stores, st': Stores, j: SyncJob, h: Holder, source: map<string, Document>, at: Time)
    requires NoneDied(st) && LeaseOwned(j, at, h.workerID)
    requires st'.jobs.jobs == st.jobs.jobs[j.id := JobAfter(j, h, source, j, Undisturbed(at))]
    ensures NoneDied(st')
  {
    hide JobAfter; hide LeaseOwned; hide ForCustomer;
    forall customer ensures var j' := JobAfter(j, h, source, j, Undisturbed(at));
      j'.state.Dead? ==> !ForCustomer(j'.projectionType, j'.projectionKey, customer)
    {
      CustomersJobIsSynced(j, h, source, at, customer);
    }
  }

  /** A live job can be brought one step further, once it is due, by an idle routine that nothing disturbs. */
  lemma {:induction false} JobProgress(s: System, w: string, id: string) returns (run: seq<Tick>, s': System)
    requires StoresValid(s.stores) && id in s.stores.jobs.jobs && Live(s.stores.jobs.jobs[id])
    requires RoutineOf(s, w) == IDLE
    ensures Reaches(s, w, run, s', 1) && RoutineOf(s', w) == IDLE
    ensures NoneDied(s.stores) ==> NoneDied(s'.stores)
  {
    hide Reaches; hide StoresValid; hide Step; hide Enabled; hide BatchOf; hide AfterBatch; hide LeaseOwned;
    hide RoutineOf; hide Claimable; hide Live; hide DueAt; hide JobAfter; hide DocsAfter; hide NoneDied;
    var j := s.stores.jobs.jobs[id];
    var at := DueAt(j, s.now);
    DueIsClaimable(j, s.now);
    StoresAreKeyed(s.stores);
    SomethingIsClaimed(s.stores.jobs, j.syncID, w, at, at + SECOND, id);
    ClaimMoves(s, at, w, j.syncID, 1, SECOND);
    var e, batch := ClaimJobs(w, j.syncID, 1, SECOND), BatchOf(s.stores.jobs, j.syncID, w, 1, at, at + SECOND);
    ReachesByStep(s, w, at, e);
    var s1, h := Step(s, at, e), Holder(w, SECOND);
    var more: seq<Tick>;
    more, s' := RoundRun(s1, h, batch, Collecting, Undisturbed(at), "", at);
    ReachesThen(s, w, [Tick(at, e)], s1, 0, more, s', 1);
    run := [Tick(at, e)] + more;
    if NoneDied(s.stores) { RoundKillsNoCustomer(s.stores, s'.stores, batch[0], h, s1.source, at); }
  }

  /** Where work is left, an idle routine can make a productive step. */
  lemma {:induction false} WorkProgresses(s: System, w: string) returns (run: seq<Tick>, s': System)
    requires Inv(s) && Measure(s.stores) > 0 && RoutineOf(s, w) == IDLE
    ensures Reaches(s, w, run, s', 1) && Inv(s') && Measure(s'.stores) < Measure(s.stores)
    ensures RoutineOf(s', w) == IDLE && (NoneDied(s.stores) ==> NoneDied(s'.stores))
  {
    hide Inv; hide StoresValid; hide Measure; hide Legal; hide Run; hide ProductiveSteps; hide Adds; hide NoneDied;
    hide OwnRun; hide RoutineOf;
    InvStores(s);
    DrainedIsQuiet(s);
    var deltas, jobs := s.stores.deltas.deltas, s.stores.jobs.jobs;
    if id :| id in deltas && deltas[id].state.DeltaPending? {
      run, s' := DeltaProgress(s, w, id);
    } else {
      var id :| id in jobs && !Terminal(jobs[id]);
      InvJob(s, id);
      run, s' := JobProgress(s, w, id);
    }
    BacklogDrains(s, run);
    RunInv(s, run);
  }

  /** From every state of every run, an idle routine can on its own, adding no work, leave nothing pending and every
      job synced or dead, a customer's job dead only if it was so before. */
  lemma {:induction false} BacklogCanDrain(s: System, w: string) returns (run: seq<Tick>, s': System)
    requires Inv(s) && RoutineOf(s, w) == IDLE
    ensures Reaches(s, w, run, s', 0) && Inv(s') && Measure(s'.stores) == 0
    ensures forall id | id in s'.stores.deltas.deltas :: !s'.stores.deltas.deltas[id].state.DeltaPending?
    ensures forall id | id in s'.stores.jobs.jobs :: Terminal(s'.stores.jobs.jobs[id])
    ensures NoneDied(s.stores) ==> NoneDied(s'.stores)
    decreases Measure(s.stores)
  {
    hide StoresValid; hide Measure; hide Reaches; hide Terminal; hide NoneDied; hide RoutineOf;
    assert StoresValid(s.stores) by { InvStores(s); }
    if Measure(s.stores) == 0 {
      DrainedIsQuiet(s);
      ReachesItself(s, w);
      run, s' := [], s;
    } else {
      var first: seq<Tick>, more: seq<Tick>, s1: System;
      first, s1 := WorkProgresses(s, w);
      more, s' := BacklogCanDrain(s1, w);
      ReachesThen(s, w, first, s1, 1, more, s', 0);
      run := first + more;
      FewerSteps(s, w, run, s', 1);
    }
  }

  lemma FewerSteps(s: System, w: string, run: seq<Tick>, s': System, n: nat)
    requires Reaches(s, w, run, s', n)
    ensures Reaches(s, w, run, s', 0)
  {
  }
}
