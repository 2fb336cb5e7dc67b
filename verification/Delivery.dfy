/** Progress and the worker joined to convergence: the target can always catch up with the source, and the
    worker's cycles bring it there. */
module Delivery {
  import opened Types
  import opened Jobs
  import opened Dispatch
  import opened DispatchStore
  import opened Protocol
  import opened Attempts
  import opened Convergence
  import opened Drain
  import opened Worker
  import opened WorkerRuns
  import opened Progress
  import D = Deltas

  ghost predicate OthersIdle(s: System, w: string) {
    forall r | r != w :: RoutineOf(s, r) == IDLE
  }

  lemma {:induction false} OthersStayIdle(s: System, at: Time, e: Event, w: string)
    requires StoresValid(s.stores) && Enabled(s, at, e) && OwnEvent(e, w) && OthersIdle(s, w)
    ensures OthersIdle(Step(s, at, e), w) && Alone(s, e)
  {
    hide StoresValid; hide Step; hide Enabled; hide RoutineAfter; hide RoutineOf; hide ForCustomer;
    forall r | r != w ensures RoutineOf(Step(s, at, e), r) == IDLE {
      RoutineIsAfter(s, at, e, r);
    }
  }

  /** A routine that runs while the others are idle is alone on every customer. */
  lemma {:induction false} SoloIsSerialised(s: System, w: string, run: seq<Tick>)
    requires StoresValid(s.stores) && Legal(s, run) && OwnRun(run, w) && OthersIdle(s, w)
    ensures Serialised(s, run) && OthersIdle(Run(s, run), w)
    decreases |run|
  {
    hide StoresValid; hide Step; hide Enabled; hide OthersIdle; hide Alone; hide OwnEvent;
    if run != [] {
      OthersStayIdle(s, run[0].at, run[0].event, w);
      SoloIsSerialised(Step(s, run[0].at, run[0].event), w, run[1..]);
    }
  }

  lemma {:induction false} SerialisedThen(s: System, a: seq<Tick>, b: seq<Tick>)
    requires StoresValid(s.stores) && Legal(s, a) && Legal(Run(s, a), b)
    requires Serialised(s, a) && Serialised(Run(s, a), b)
    ensures Legal(s, a + b) && Run(s, a + b) == Run(Run(s, a), b) && Serialised(s, a + b)
    decreases |a|
  {
    hide StoresValid; hide Step; hide Enabled; hide Alone;
    RunThen(s, a, b);
    if a == [] {
      assert a + b == b;
    } else {
      assert (a + b)[1..] == a[1..] + b && (a + b)[0] == a[0];
      SerialisedThen(Step(s, a[0].at, a[0].event), a[1..], b);
    }
  }

  // ----- The target can always catch up -----

  ghost function Busy(s: System): set<string> {
    set r | r in s.routines && s.routines[r] != IDLE
  }

  lemma {:induction false} AbandonStep(s: System, r: string)
    requires StoresValid(s.stores) && r in Busy(s)
    ensures Enabled(s, s.now, Abandon(r)) && Alone(s, Abandon(r))
    ensures var s' := Step(s, s.now, Abandon(r));
      s'.stores == s.stores && s'.source == s.source && s'.target == s.target && Busy(s') == Busy(s) - {r}
  {
    hide StoresValid;
  }

  /** All routines crash: whatever they were doing, their leases are left to lapse. */
  lemma {:induction false} AllAbandon(s: System) returns (run: seq<Tick>, s': System)
    requires StoresValid(s.stores)
    ensures Legal(s, run) && Run(s, run) == s' && Serialised(s, run) && NothingAdded(run)
    ensures s'.stores == s.stores && s'.source == s.source && forall r :: RoutineOf(s', r) == IDLE
    decreases |Busy(s)|
  {
    hide StoresValid; hide Step; hide Enabled; hide Alone;
    if Busy(s) == {} {
      run, s' := [], s;
      forall r ensures RoutineOf(s, r) == IDLE {
        assert r !in Busy(s);
      }
    } else {
      var r :| r in Busy(s);
      AbandonStep(s, r);
      var more: seq<Tick>;
      more, s' := AllAbandon(Step(s, s.now, Abandon(r)));
      run := [Tick(s.now, Abandon(r))] + more;
      assert run[0] == Tick(s.now, Abandon(r)) && run[1..] == more;
    }
  }

  lemma {:induction false} SourceStays(s: System, run: seq<Tick>)
    requires StoresValid(s.stores) && Legal(s, run) && NothingAdded(run)
    ensures Run(s, run).source == s.source
    decreases |run|
  {
    hide StoresValid; hide Enabled;
    if run != [] {
      assert !Adds(run[0].event);
      SourceStays(Step(s, run[0].at, run[0].event), run[1..]);
    }
  }

  /** From every converging state in which no customer's job has died, some legal serialised run that adds nothing
      uses the backlog up and ends with the target equal to the source. */
  lemma {:induction false} TargetCanCatchUp(s: System) returns (run: seq<Tick>, s': System)
    requires Converging(s) && NoneDied(s.stores)
    ensures StoresValid(s.stores) && Legal(s, run) && Run(s, run) == s' && Serialised(s, run) && NothingAdded(run)
    ensures Converging(s') && Measure(s'.stores) == 0 && s'.target == s'.source == s.source
  {
    hide StoresValid; hide Converging; hide Inv; hide NoneDied; hide Measure; hide RoutineOf; hide OwnRun; hide Legal;
    hide Run; hide Serialised; hide Adds;
    ConvergingFacts(s);
    var first: seq<Tick>, more: seq<Tick>, s1: System;
    first, s1 := AllAbandon(s);
    RunInv(s, first);
    var w := FreshRoutine(s1);
    more, s' := BacklogCanDrain(s1, w);
    SoloIsSerialised(s1, w, more);
    SerialisedThen(s, first, more);
    run := first + more;
    RunConverging(s, run);
    SourceStays(s, run);
    DrainedTargetIsSource(s');
  }

  // ----- The worker's own cycles -----

  /** The worker's `RunOnce` with the other routines idle keeps what convergence rests on. Once its stores have
      nothing left to do, and no customer's job has died, its target is its source. */
  method RunOnceConverges(worker: SyncWorker, dispatcher: MemoryDispatchStore, cancelled: bool, at: Time, c: Cycle,
                          ghost s: System)
    returns (err: Option<Error>, ghost run: seq<Tick>, ghost s': System, ghost passed: nat)
    requires dispatcher.Valid() && dispatcher.jobStore == worker.jobStore && worker.config.concurrency <= 1
    requires s.stores == dispatcher.Tables() && s.target == worker.target.docs && s.source == worker.source
    requires Converging(s) && (forall r :: RoutineOf(s, r) == IDLE) && s.now <= at
    requires CycleFits(c, EffectiveBatchSize(worker.config))
    requires forall leased, r | ClaimOutcome(Dispatched(s.stores, worker.config, true, at).jobs, leased,
                                             worker.config.syncID, worker.config.workerID,
                                             EffectiveBatchSize(worker.config), worker.config.lockFor, c, r) ::
               CycleClock(at, worker.config, worker.config.workerID, s.source, c,
                          Dispatched(s.stores, worker.config, true, at).jobs, leased, r)
    modifies worker.jobStore, worker.target, dispatcher.deltaStore
    ensures s'.stores == dispatcher.Tables() && s'.target == worker.target.docs && s'.source == worker.source
    ensures Converging(s') && (forall r :: RoutineOf(s', r) == IDLE)
    ensures Measure(s'.stores) + passed <= Measure(s.stores)
    ensures Measure(s'.stores) == 0 && NoneDied(s'.stores) ==> worker.target.docs == worker.source
  {
    hide D.DeltasValid; hide JobsValid; hide Inv; hide Converging; hide NoneDied; hide RoutineOf; hide CycleClock;
    hide ClaimOutcome; hide AfterDispatch; hide Selection; hide Measure; hide Legal; hide Run; hide ProductiveSteps;
    hide OwnRun; hide Adds; hide Serialised;
    ConvergingFacts(s);
    err, run, s', passed := RunOnceInStep(worker, dispatcher, cancelled, at, c, s);
    SoloIsSerialised(s, worker.config.workerID, run);
    RunConverging(s, run);
    if Measure(s'.stores) == 0 && NoneDied(s'.stores) { DrainedTargetIsSource(s'); }
  }
}
