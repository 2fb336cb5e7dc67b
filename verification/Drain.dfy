/** A measure that only enqueue and create can raise, and that every productive step lowers. */
module Drain {
  import opened Types
  import opened Ranks
  import opened Jobs
  import opened Dispatch
  import opened Runs
  import opened Protocol
  import opened Attempts
  import opened Totals
  import D = Deltas

  /** One more than the attempts of the job that dispatching the delta creates. */
  const DELTA_WEIGHT: nat := 6

  function DeltaWeight(d: Delta): nat {
    if d.state.DeltaPending? then DELTA_WEIGHT else 0
  }

  /** The attempts a live job has left. */
  function JobWeight(j: SyncJob): nat {
    if Live(j) && j.attemptCount < j.maxAttempts then j.maxAttempts - j.attemptCount else 0
  }

  function DeltaWeights(deltas: map<string, Delta>): map<string, nat> {
    map id | id in deltas :: DeltaWeight(deltas[id])
  }

  function JobWeights(jobs: map<string, SyncJob>): map<string, nat> {
    map id | id in jobs :: JobWeight(jobs[id])
  }

  ghost function Measure(st: Stores): nat {
    Total(DeltaWeights(st.deltas.deltas)) + Total(JobWeights(st.jobs.jobs))
  }

  // ----- Dispatch lowers it -----

  lemma MarkingLowers(deltas: map<string, Delta>, id: string, now: Time)
    requires id in deltas && deltas[id].state.DeltaPending?
    ensures Total(DeltaWeights(deltas[id := D.Dispatched(deltas[id], now)])) + DELTA_WEIGHT
         == Total(DeltaWeights(deltas))
  {
    assert DeltaWeights(deltas[id := D.Dispatched(deltas[id], now)]) == DeltaWeights(deltas)[id := 0];
    TotalUpdate(DeltaWeights(deltas), id, 0);
  }

  lemma CreatingRaises(jobs: map<string, SyncJob>, d: Delta, id: string, now: Time)
    requires id !in jobs
    ensures Total(JobWeights(jobs[id := NewJob(d, id, now)])) == Total(JobWeights(jobs)) + DEFAULT_MAX_ATTEMPTS
  {
    assert JobWeights(jobs[id := NewJob(d, id, now)]) == JobWeights(jobs)[id := DEFAULT_MAX_ATTEMPTS as nat];
    TotalUpdate(JobWeights(jobs), id, DEFAULT_MAX_ATTEMPTS);
  }

  lemma DispatchOneLowers(st: Stores, id: string, now: Time)
    requires StoresValid(st) && id in st.deltas.deltas && st.deltas.deltas[id].state.DeltaPending?
    ensures Measure(DispatchOne(st, id, now)) < Measure(st)
  {
    hide StoresValid; hide NewJob; hide DeltaWeights; hide JobWeights; hide D.Dispatched;
    MarkingLowers(st.deltas.deltas, id, now);
    if id !in st.jobs.jobByDelta {
      JobForIsNew(st, id, now);
      CreatingRaises(st.jobs.jobs, st.deltas.deltas[id], JobFor(st, id, now).id, now);
    }
  }

  lemma {:induction false} DispatchAllLowers(st: Stores, q: seq<Rank>, now: Time)
    requires StoresValid(st) && Known(st, q) && DistinctQueue(q)
    requires forall i | 0 <= i < |q| :: st.deltas.deltas[q[i].id].state.DeltaPending?
    ensures Measure(DispatchAll(st, q, now)) + |q| <= Measure(st)
    decreases |q|
  {
    hide Measure; hide StoresValid; hide JobFor;
    if q != [] {
      DispatchOneLowers(st, q[0].id, now);
      DispatchOneKeeps(st, q[0].id, now);
      DispatchAllLowers(DispatchOne(st, q[0].id, now), q[1..], now);
    }
  }

  // ----- Every other event keeps it -----

  ghost predicate Adds(e: Event) {
    e.ChangeSource? || (e.Env? && (e.call.Enqueue? || e.call.EnqueueBatch? || e.call.Create?))
  }

  /** An event that dispatches a delta or finalises a claimed job. */
  ghost predicate Productive(s: System, at: Time, e: Event)
    requires StoresValid(s.stores) && Enabled(s, at, e)
  {
    || (e.Env? && e.call.DispatchPending? && Selection(s.stores, e.call.syncID, e.call.limit) != [])
    || Finalised(s, at, e)
  }

  lemma WeightNeverRises(c: Call, id: string, j: SyncJob, j': SyncJob, f: seq<Failure>, now: Time, at: Time)
    requires JobInv(j, f, now) && Change(c, id, j, j', at)
    ensures JobWeight(j') <= JobWeight(j)
  {
    hide TrimSpace; hide Spaced; hide WorkerBackoff; hide Due;
    ChangeKeepsIdentity(c, id, j, j', at);
  }

  lemma {:induction false} JobsKeepWeight(s: System, at: Time, e: Event)
    requires Inv(s) && Enabled(s, at, e) && !Adds(e) && !(e.Env? && e.call.DispatchPending?)
    ensures var jobs, jobs' := s.stores.jobs.jobs, StoresAfter(s, at, e).jobs.jobs;
      jobs'.Keys == jobs.Keys && forall id | id in jobs :: JobWeight(jobs'[id]) <= JobWeight(jobs[id])
  {
    hide StoresValid; hide StoresAfter; hide JobInv; hide Change; hide JobWeight; hide RoutineInv;
    forall id | id in StoresAfter(s, at, e).jobs.jobs ensures id in s.stores.jobs.jobs {
      if id !in s.stores.jobs.jobs { JobsAreAddedOnlyBy(s, at, e, id); }
    }
    forall id | id in s.stores.jobs.jobs
      ensures id in StoresAfter(s, at, e).jobs.jobs
      ensures JobWeight(StoresAfter(s, at, e).jobs.jobs[id]) <= JobWeight(s.stores.jobs.jobs[id])
    {
      StoredJobChanges(s, at, e, id);
      assert JobInv(s.stores.jobs.jobs[id], s.failures[id], s.now);
      if CallOf(s, at, e).Some? {
        WeightNeverRises(CallOf(s, at, e).value, id, s.stores.jobs.jobs[id], StoresAfter(s, at, e).jobs.jobs[id],
                         s.failures[id], s.now, at);
      }
    }
  }

  lemma {:induction false} JobsAreAddedOnlyBy(s: System, at: Time, e: Event, id: string)
    requires StoresValid(s.stores) && Enabled(s, at, e)
    requires id in StoresAfter(s, at, e).jobs.jobs && id !in s.stores.jobs.jobs
    ensures e.Env? && (e.call.Create? || e.call.DispatchPending?)
  {
    hide Do; hide BatchOf; hide JobsValid;
    OnlyCreationAdds(s.stores, CallOf(s, at, e).value, at, StoresAfter(s, at, e), id);
  }

  lemma {:induction false} DeltasUntouched(s: System, at: Time, e: Event)
    requires StoresValid(s.stores) && Enabled(s, at, e) && !Adds(e) && !(e.Env? && e.call.DispatchPending?)
    ensures StoresAfter(s, at, e).deltas == s.stores.deltas
  {
    hide StoresValid; hide AfterBatch; hide BatchOf; hide AfterUpdate; hide AfterOperator;
  }

  lemma {:induction false} FinaliseLowers(s: System, at: Time, e: Event)
    requires Inv(s) && Enabled(s, at, e) && Finalised(s, at, e)
    ensures RoutineOf(s, e.routine).jobs != []
    ensures var id := RoutineOf(s, e.routine).jobs[0].id;
      && id in s.stores.jobs.jobs && id in StoresAfter(s, at, e).jobs.jobs
      && JobWeight(StoresAfter(s, at, e).jobs.jobs[id]) < JobWeight(s.stores.jobs.jobs[id])
  {
    hide Inv; hide StoresValid; hide Spaced; hide Due; hide FailOrRetry; hide SnapshotInv; hide WorkerBackoff;
    InvStores(s);
    InvRoutine(s, e.routine);
    var rt := RoutineOf(s, e.routine);
    InvJob(s, rt.jobs[0].id);
  }

  lemma {:induction false} DispatchDrains(st: Stores, syncID: string, limit: int, now: Time)
    requires StoresValid(st)
    ensures Measure(AfterDispatch(st, syncID, limit, now)) + |Selection(st, syncID, limit)| <= Measure(st)
  {
    hide StoresValid; hide Measure; hide DispatchAll; hide Before;
    SelectionIsDistinct(st, syncID, limit);
    DispatchAllLowers(st, Selection(st, syncID, limit), now);
  }

  /** The measure never rises except by an enqueue or a create, and strictly falls whenever a delta is
      dispatched or a claimed job is finalised. */
  lemma {:induction false} StepDrains(s: System, at: Time, e: Event)
    requires Inv(s) && Enabled(s, at, e) && !Adds(e)
    ensures Measure(Step(s, at, e).stores) + (if Productive(s, at, e) then 1 else 0) <= Measure(s.stores)
  {
    hide Inv; hide StoresValid; hide Enabled; hide JobWeight; hide DeltaWeight; hide AfterDispatch; hide Selection;
    hide UpdateError;
    InvStores(s);
    var st, st' := s.stores, StoresAfter(s, at, e);
    if e.Env? && e.call.DispatchPending? {
      DispatchDrains(st, e.call.syncID, e.call.limit, at);
    } else {
      JobsKeepWeight(s, at, e);
      DeltasUntouched(s, at, e);
      if Finalised(s, at, e) {
        FinaliseLowers(s, at, e);
        var id := RoutineOf(s, e.routine).jobs[0].id;
        assert JobWeights(st'.jobs.jobs)[id] < JobWeights(st.jobs.jobs)[id];
      }
      TotalMonotone(JobWeights(st'.jobs.jobs), JobWeights(st.jobs.jobs));
    }
  }

  ghost predicate NothingAdded(run: seq<Tick>) {
    forall i | 0 <= i < |run| :: !Adds(run[i].event)
  }

  ghost function ProductiveSteps(s: System, run: seq<Tick>): nat
    requires StoresValid(s.stores) && Legal(s, run)
    decreases |run|
  {
    if run == [] then 0
    else (if Productive(s, run[0].at, run[0].event) then 1 else 0)
         + ProductiveSteps(Step(s, run[0].at, run[0].event), run[1..])
  }

  /** However claims, renewals, requeues, expiries, crashes and operators interleave, a backlog allows at
      most its measure of productive steps. */
  lemma {:induction false} BacklogDrains(s: System, run: seq<Tick>)
    requires Inv(s) && Legal(s, run) && NothingAdded(run)
    ensures ProductiveSteps(s, run) + Measure(Run(s, run).stores) <= Measure(s.stores)
    decreases |run|
  {
    if run != [] {
      assert !Adds(run[0].event);
      StepDrains(s, run[0].at, run[0].event);
      StepInv(s, run[0].at, run[0].event);
      BacklogDrains(Step(s, run[0].at, run[0].event), run[1..]);
    }
  }

  /** The measure is used up exactly when no delta is pending and every job is synced or dead. */
  lemma {:induction false} DrainedIsQuiet(s: System)
    requires Inv(s)
    ensures Measure(s.stores) == 0 <==>
      && (forall id | id in s.stores.deltas.deltas :: !s.stores.deltas.deltas[id].state.DeltaPending?)
      && (forall id | id in s.stores.jobs.jobs :: Terminal(s.stores.jobs.jobs[id]))
  {
    var deltas, jobs := s.stores.deltas.deltas, s.stores.jobs.jobs;
    TotalZero(DeltaWeights(deltas));
    TotalZero(JobWeights(jobs));
    forall id | id in jobs ensures JobWeight(jobs[id]) == 0 <==> Terminal(jobs[id]) {
      assert JobInv(jobs[id], s.failures[id], s.now);
    }
    forall id | id in deltas ensures DeltaWeights(deltas)[id] == 0 <==> !deltas[id].state.DeltaPending? {
    }
    assert forall id | id in jobs :: JobWeights(jobs)[id] == JobWeight(jobs[id]);
  }

  /** A run that makes as many productive steps as its backlog measures has drained it. */
  lemma {:induction false} EnoughStepsDrain(s: System, run: seq<Tick>)
    requires Inv(s) && Legal(s, run) && NothingAdded(run) && ProductiveSteps(s, run) >= Measure(s.stores)
    ensures var st := Run(s, run).stores;
      && (forall id | id in st.deltas.deltas :: !st.deltas.deltas[id].state.DeltaPending?)
      && (forall id | id in st.jobs.jobs :: Terminal(st.jobs.jobs[id]))
  {
    BacklogDrains(s, run);
    RunInv(s, run);
    DrainedIsQuiet(Run(s, run));
  }
}
