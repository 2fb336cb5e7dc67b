/** The worker's loops refine the protocol: draining a batch is a run of it, so everything proved about all
    runs holds of the worker. */
module WorkerRuns {
  import opened Types
  import opened Jobs
  import opened Dispatch
  import opened Runs
  import opened Protocol
  import opened Releases
  import opened Worker
  import opened DispatchStore
  import opened Attempts
  import opened Drain
  import C = Claims
  import D = Deltas
  import F = DeltaFields
  import M = DispatchFields
  import L = ClaimLoops

  /** Routine w's own event, or a call from outside. */
  predicate OwnEvent(e: Event, w: string) {
    e.Env? || (!e.ChangeSource? && e.routine == w)
  }

  predicate OwnRun(run: seq<Tick>, w: string) {
    forall i | 0 <= i < |run| :: OwnEvent(run[i].event, w)
  }

  /** A run from s to s' in which no routine but w takes part, that adds no work and makes at least n productive
      steps. */
  ghost predicate Reaches(s: System, w: string, run: seq<Tick>, s': System, n: nat) {
    && StoresValid(s.stores) && Legal(s, run) && Run(s, run) == s' && OwnRun(run, w) && NothingAdded(run)
    && ProductiveSteps(s, run) >= n
  }

  lemma ReachesItself(s: System, w: string)
    requires StoresValid(s.stores)
    ensures Reaches(s, w, [], s, 0)
  {
  }

  lemma {:induction false} ReachesByStep(s: System, w: string, at: Time, e: Event)
    requires StoresValid(s.stores) && Enabled(s, at, e) && !Adds(e) && OwnEvent(e, w)
    ensures Reaches(s, w, [Tick(at, e)], Step(s, at, e), 0)
    ensures Productive(s, at, e) ==> Reaches(s, w, [Tick(at, e)], Step(s, at, e), 1)
  {
    hide Enabled; hide Step; hide Productive;
    var run := [Tick(at, e)];
    assert run[1..] == [];
    assert Legal(Step(s, at, e), []) && Run(Step(s, at, e), []) == Step(s, at, e);
  }

  lemma {:induction false} StepsAdd(s: System, a: seq<Tick>, b: seq<Tick>)
    requires StoresValid(s.stores) && Legal(s, a) && Legal(Run(s, a), b) && Legal(s, a + b)
    ensures ProductiveSteps(s, a + b) == ProductiveSteps(s, a) + ProductiveSteps(Run(s, a), b)
    decreases |a|
  {
    hide Step; hide Enabled; hide Productive;
    if a == [] {
      assert a + b == b;
    } else {
      assert (a + b)[1..] == a[1..] + b && (a + b)[0] == a[0];
      StepsAdd(Step(s, a[0].at, a[0].event), a[1..], b);
    }
  }

  lemma {:induction false} ReachesThen(s: System, w: string, a: seq<Tick>, s1: System, n: nat, b: seq<Tick>,
                                       s2: System, m: nat)
    requires Reaches(s, w, a, s1, n) && Reaches(s1, w, b, s2, m)
    ensures Reaches(s, w, a + b, s2, n + m)
  {
    hide Legal; hide Run; hide StoresValid; hide ProductiveSteps; hide Adds; hide OwnEvent;
    RunThen(s, a, b);
    StepsAdd(s, a, b);
  }

  /** From s to s' nothing moved but the given routine, the job table's jobs and the target. */
  ghost predicate Moves(s: System, s': System, w: string, rt: Routine, jobs: map<string, SyncJob>,
                        target: map<string, Document>) {
    && StoresValid(s'.stores) && s'.source == s.source && s'.target == target && s'.stores.deltas == s.stores.deltas
    && s'.stores.jobs == s.stores.jobs.(jobs := jobs)
    && RoutineOf(s', w) == rt && (forall r | r != w :: RoutineOf(s', r) == RoutineOf(s, r))
  }

  lemma MovesThen(s: System, s1: System, s2: System, w: string, rt1: Routine, jobs1: map<string, SyncJob>,
                  target1: map<string, Document>, rt2: Routine, jobs2: map<string, SyncJob>,
                  target2: map<string, Document>)
    requires Moves(s, s1, w, rt1, jobs1, target1) && Moves(s1, s2, w, rt2, jobs2, target2)
    ensures Moves(s, s2, w, rt2, jobs2, target2)
  {
    hide StoresValid; hide RoutineOf;
  }

  lemma MovesNowhere(s: System, w: string)
    requires StoresValid(s.stores)
    ensures Moves(s, s, w, RoutineOf(s, w), s.stores.jobs.jobs, s.target)
  {
  }

  lemma WhatMoved(s: System, s': System, w: string, rt: Routine, jobs: map<string, SyncJob>,
                  target: map<string, Document>)
    requires Moves(s, s', w, rt, jobs, target)
    ensures StoresValid(s'.stores) && RoutineOf(s', w) == rt && s'.stores.jobs.jobs == jobs
    ensures s'.target == target && s'.source == s.source
  {
  }

  // ----- Several routines -----

  /** What a routine's code does next is settled by its own snapshots and phase; only a claim loop that already holds
      jobs looks at the stores. */
  predicate OwnTurn(rt: Routine, e: Event) {
    match e
    case Env(_) | ChangeSource(_, _, _) => false
    case ClaimJobs(_, _, limit, lockFor) => rt == IDLE && limit > 0 && lockFor > 0
    case Heartbeat(_, lockFor) => rt.jobs != [] && lockFor > 0
    case Project(_, _) | Cancel(_, _, _) => rt.jobs != [] && (rt.phase.Collecting? || rt.phase.Next?)
    case Apply(_, _, _) => rt.jobs != [] && rt.phase.Projected? && !rt.phase.fetched.Broken?
    case Decide(_, _, _) => rt.jobs != [] && (rt.phase == Projected(Broken) || rt.phase.Applied?)
    case Finalise(_, _, _, _) => rt.jobs != [] && rt.phase.Finalising?
    case Requeue(_, _) => rt.jobs != [] && rt.phase.Requeueing?
    case Abandon(_) => true
  }

  lemma {:induction false} OwnTurnIsEnabled(s: System, at: Time, e: Event)
    requires StoresValid(s.stores) && !e.Env? && !e.ChangeSource? && OwnTurn(RoutineOf(s, e.routine), e) && at >= s.now
    ensures Enabled(s, at, e)
  {
    hide StoresValid; hide BatchOf; hide RoutineOf;
  }

  /** The next calls of the routines of one worker, in whatever order they reach the stores. */
  ghost predicate OneTurnEach(s: System, run: seq<Tick>)
    requires StoresValid(s.stores)
  {
    && (forall i | 0 <= i < |run| ::
          && s.now <= run[i].at && !run[i].event.Env? && !run[i].event.ChangeSource?
          && OwnTurn(RoutineOf(s, run[i].event.routine), run[i].event))
    && (forall i, k | 0 <= i < k < |run| ::
          run[i].at <= run[k].at && run[i].event.routine != run[k].event.routine)
  }

  /** Every interleaving of the next calls of any number of routines is a run: no routine's call keeps another from
      making its own. */
  lemma {:induction false} CallsInterleave(s: System, run: seq<Tick>)
    requires StoresValid(s.stores) && OneTurnEach(s, run)
    ensures Legal(s, run)
    decreases |run|
  {
    hide StoresValid; hide Enabled; hide Step; hide OwnTurn; hide RoutineOf; hide RoutineAfter;
    if run != [] {
      var at, e := run[0].at, run[0].event;
      OwnTurnIsEnabled(s, at, e);
      var s1 := Step(s, at, e);
      assert s1.now == at by { StepsTo(s, at, e); }
      forall i | 0 <= i < |run[1..]|
        ensures RoutineOf(s1, run[1..][i].event.routine) == RoutineOf(s, run[1..][i].event.routine)
      {
        RoutineIsAfter(s, at, e, run[i + 1].event.routine);
      }
      CallsInterleave(s1, run[1..]);
    }
  }

  lemma {:induction false} StepsTo(s: System, at: Time, e: Event)
    requires StoresValid(s.stores) && Enabled(s, at, e)
    ensures Step(s, at, e).now == at
  {
    hide StoresValid; hide Enabled;
  }

  // ----- Single events -----

  /** The routine stands with the first job of its batch, which the store knows. */
  ghost predicate Stands(s: System, w: string, batch: seq<SyncJob>, phase: Phase) {
    && StoresValid(s.stores) && batch != [] && RoutineOf(s, w) == Routine(batch, phase)
    && batch[0].id in s.stores.jobs.jobs
  }

  lemma {:induction false} BeatMoves(s: System, at: Time, w: string, lockFor: int, batch: seq<SyncJob>, phase: Phase)
    requires Stands(s, w, batch, phase) && at >= s.now && lockFor > 0
    requires LeaseOwned(s.stores.jobs.jobs[batch[0].id], at, w)
    ensures Enabled(s, at, Heartbeat(w, lockFor))
    ensures var s', id := Step(s, at, Heartbeat(w, lockFor)), batch[0].id;
      && s'.now == at
      && Moves(s, s', w, Routine(batch, phase),
               s.stores.jobs.jobs[id := Updated(s.stores.jobs.jobs[id], RenewLease(lockFor), at)], s.target)
  {
    hide StoresValid; hide LeaseOwned; hide Updated;
  }

  lemma {:induction false} ProjectMoves(s: System, at: Time, w: string, batch: seq<SyncJob>, phase: Phase, broken: bool)
    requires Stands(s, w, batch, phase) && (phase.Collecting? || phase.Next?) && at >= s.now
    ensures Enabled(s, at, Project(w, broken))
    ensures var s' := Step(s, at, Project(w, broken));
      && s'.now == at
      && Moves(s, s', w, Routine(batch, Projected(if broken then Broken
                                   else ProjectFrom(s.source, batch[0].projectionType, batch[0].projectionKey))),
               s.stores.jobs.jobs, s.target)
  {
    hide StoresValid; hide ProjectFrom;
  }

  lemma {:induction false} ApplyMoves(s: System, at: Time, w: string, batch: seq<SyncJob>, f: Fetched, ok: bool,
                                      effect: bool)
    requires Stands(s, w, batch, Projected(f)) && !f.Broken? && at >= s.now
    ensures Enabled(s, at, Apply(w, ok, effect))
    ensures var s' := Step(s, at, Apply(w, ok, effect));
      && s'.now == at
      && Moves(s, s', w, Routine(batch, Applied(ok, f.Missing?)), s.stores.jobs.jobs,
               if ok || effect then ApplyTo(s.target, batch[0].projectionKey, f) else s.target)
  {
    hide StoresValid; hide ApplyTo;
  }

  lemma {:induction false} DecideMoves(s: System, at: Time, w: string, batch: seq<SyncJob>, phase: Phase, failed: bool,
                                       error: string)
    requires Stands(s, w, batch, phase) && (phase == Projected(Broken) || phase.Applied?) && at >= s.now
    ensures Enabled(s, at, Decide(w, failed, error))
    ensures var s' := Step(s, at, Decide(w, failed, error));
      && s'.now == at
      && Moves(s, s', w, Routine(batch, Finalising(Decision(batch[0], phase, failed, error, at), at)),
               s.stores.jobs.jobs, s.target)
  {
    hide StoresValid; hide Decision;
  }

  predicate Lands(j: SyncJob, w: string, at: Time, lost: bool) {
    !lost && LeaseOwned(j, at, w)
  }

  lemma {:induction false} FinaliseMoves(s: System, at: Time, w: string, batch: seq<SyncJob>, u: LeaseUpdate,
                                         readAt: Time, timedOut: bool, reason: string, nextRunAt: Time)
    requires Stands(s, w, batch, Finalising(u, readAt)) && at >= s.now && !u.RenewLease?
    ensures Enabled(s, at, Finalise(w, timedOut, reason, nextRunAt))
    ensures Lands(s.stores.jobs.jobs[batch[0].id], w, at, timedOut) ==>
              Productive(s, at, Finalise(w, timedOut, reason, nextRunAt))
    ensures var s', j := Step(s, at, Finalise(w, timedOut, reason, nextRunAt)), s.stores.jobs.jobs[batch[0].id];
      && s'.now == at
      && Moves(s, s', w, Continue(batch[1..],
                                 if Lands(j, w, at, timedOut) then Next else Requeueing(reason, nextRunAt)),
               if Lands(j, w, at, timedOut) then s.stores.jobs.jobs[j.id := Updated(j, u, at)] else s.stores.jobs.jobs,
               s.target)
  {
    hide D.DeltasValid; hide Mapped; hide Updated; hide LeaseOwned;
  }

  lemma {:induction false} RequeueMoves(s: System, at: Time, w: string, batch: seq<SyncJob>, reason: string,
                                        nextRunAt: Time, lost: bool)
    requires Stands(s, w, batch, Requeueing(reason, nextRunAt)) && at >= s.now
    ensures Enabled(s, at, Requeue(w, lost))
    ensures var s', id := Step(s, at, Requeue(w, lost)), batch[0].id;
      && s'.now == at
      && Moves(s, s', w, Continue(batch[1..], Requeueing(reason, nextRunAt)),
               s.stores.jobs.jobs[id := ReleasedJob(s.stores.jobs.jobs[id], w, reason, nextRunAt, Release(lost, at))],
               s.target)
  {
    hide D.DeltasValid; hide Mapped; hide Updated; hide LeaseOwned;
  }

  lemma {:induction false} CancelMoves(s: System, at: Time, w: string, batch: seq<SyncJob>, phase: Phase,
                                       reason: string, nextRunAt: Time)
    requires Stands(s, w, batch, phase) && (phase.Collecting? || phase.Next?) && at >= s.now
    ensures Enabled(s, at, Cancel(w, reason, nextRunAt))
    ensures var s' := Step(s, at, Cancel(w, reason, nextRunAt));
      s'.now == at && Moves(s, s', w, Routine(batch, Requeueing(reason, nextRunAt)), s.stores.jobs.jobs, s.target)
  {
    hide StoresValid;
  }

  // ----- One round -----

  /** Instants in the order in which they are read, between two given ones. */
  ghost predicate BeatsClock(from: Time, beats: seq<Beat>, to: Time) {
    && from <= to
    && (forall i | 0 <= i < |beats| :: from <= beats[i].at <= to)
    && (forall i, k | 0 <= i < k < |beats| :: beats[i].at <= beats[k].at)
  }

  ghost predicate RoundClock(from: Time, r: Round) {
    BeatsClock(from, r.early, r.readAt) && BeatsClock(r.readAt, r.late, r.at)
  }

  lemma NothingMoves(s: System, w: string, batch: seq<SyncJob>, phase: Phase)
    requires Stands(s, w, batch, phase)
    ensures Reaches(s, w, [], s, 0) && Moves(s, s, w, Routine(batch, phase), s.stores.jobs.jobs, s.target)
  {
    hide StoresValid;
  }

  lemma StandsAfter(s: System, s': System, w: string, batch: seq<SyncJob>, phase: Phase, rt: Routine,
                    jobs: map<string, SyncJob>, target: map<string, Document>)
    requires Stands(s, w, batch, phase) && Moves(s, s', w, rt, jobs, target) && jobs.Keys == s.stores.jobs.jobs.Keys
    ensures s'.stores.jobs.jobs == jobs && s'.target == target && s'.source == s.source
    ensures rt.jobs != [] && rt.jobs[0].id in s.stores.jobs.jobs ==> Stands(s', w, rt.jobs, rt.phase)
  {
    hide StoresValid;
  }

  lemma {:induction false} BeatsRun(s: System, h: Holder, batch: seq<SyncJob>, phase: Phase, beats: seq<Beat>, to: Time)
    returns (run: seq<Tick>, s': System)
    requires Stands(s, h.workerID, batch, phase) && h.lockFor > 0 && BeatsClock(s.now, beats, to)
    ensures Reaches(s, h.workerID, run, s', 0) && s'.now <= to
    ensures var id := batch[0].id;
      Moves(s, s', h.workerID, Routine(batch, phase),
            s.stores.jobs.jobs[id := RenewedJob(s.stores.jobs.jobs[id], h, beats)], s.target)
    decreases |beats|
  {
    hide Reaches; hide Moves; hide StoresValid; hide LeaseOwned; hide Updated; hide RoutineOf; hide Enabled; hide Step;
    var w, jobs, id := h.workerID, s.stores.jobs.jobs, batch[0].id;
    if beats == [] || !BeatWorks(jobs[id], h, beats[0]) {
      NothingMoves(s, w, batch, phase);
      assert jobs[id := jobs[id]] == jobs;
      run, s' := [], s;
    } else {
      var at := beats[0].at;
      var e, next := Heartbeat(w, h.lockFor), jobs[id := Updated(jobs[id], RenewLease(h.lockFor), at)];
      BeatMoves(s, at, w, h.lockFor, batch, phase);
      ReachesByStep(s, h.workerID, at, e);
      var s1 := Step(s, at, e);
      StandsAfter(s, s1, w, batch, phase, Routine(batch, phase), next, s.target);
      var rest: seq<Tick>;
      rest, s' := BeatsRun(s1, h, batch, phase, beats[1..], to);
      run := [Tick(at, e)] + rest;
      ReachesThen(s, h.workerID, [Tick(at, e)], s1, 0, rest, s', 0);
      var last := next[id := RenewedJob(next[id], h, beats[1..])];
      assert last == jobs[id := RenewedJob(jobs[id], h, beats)];
      MovesThen(s, s1, s', w, Routine(batch, phase), next, s.target, Routine(batch, phase), last, s.target);
    }
  }

  /** Reading the source and writing the target. */
  lemma {:induction false} PhaseRun(s: System, w: string, batch: seq<SyncJob>, phase: Phase, r: Round)
    returns (run: seq<Tick>, s': System)
    requires Stands(s, w, batch, phase) && (phase.Collecting? || phase.Next?)
    ensures Reaches(s, w, run, s', 0) && s'.now == s.now
    ensures Moves(s, s', w, Routine(batch, PhaseOf(s.source, batch[0], r)), s.stores.jobs.jobs,
                  DocsAfter(s.target, s.source, batch[0], r))
  {
    hide Reaches; hide Moves; hide StoresValid; hide RoutineOf; hide Enabled; hide Step; hide ApplyTo; hide ProjectFrom;
    var at, f, jobs := s.now, FetchOf(s.source, batch[0], r), s.stores.jobs.jobs;
    var e1 := Project(w, r.broken);
    ProjectMoves(s, at, w, batch, phase, r.broken);
    ReachesByStep(s, w, at, e1);
    var s1 := Step(s, at, e1);
    StandsAfter(s, s1, w, batch, phase, Routine(batch, Projected(f)), jobs, s.target);
    run, s' := [Tick(at, e1)], s1;
    if !f.Broken? {
      var e2 := Apply(w, r.ok, r.effect);
      ApplyMoves(s1, at, w, batch, f, r.ok, r.effect);
      ReachesByStep(s1, w, at, e2);
      s' := Step(s1, at, e2);
      ReachesThen(s, w, run, s1, 0, [Tick(at, e2)], s', 0);
      run := run + [Tick(at, e2)];
      MovesThen(s, s1, s', w, Routine(batch, Projected(f)), jobs, s.target,
                Routine(batch, Applied(r.ok, f.Missing?)), jobs,
                DocsAfter(s.target, s.source, batch[0], r));
    }
  }

  /** The heartbeats and the decision: the routine is about to finalise. */
  lemma {:induction false} VerdictRun(s: System, h: Holder, batch: seq<SyncJob>, phase: Phase, r: Round)
    returns (run: seq<Tick>, s': System)
    requires Stands(s, h.workerID, batch, phase) && h.lockFor > 0 && RoundClock(s.now, r)
    requires phase == PhaseOf(s.source, batch[0], r)
    ensures Reaches(s, h.workerID, run, s', 0) && s'.now <= r.at
    ensures var id := batch[0].id;
      Moves(s, s', h.workerID,
            Routine(batch, Finalising(Verdict(s.stores.jobs.jobs[id], h, s.source, batch[0], r), r.readAt)),
            s.stores.jobs.jobs[id := AtFinalise(s.stores.jobs.jobs[id], h, r)], s.target)
  {
    hide Reaches; hide Moves; hide StoresValid; hide LeaseOwned; hide RoutineOf; hide Enabled; hide Step;
    hide BeatsClock; hide RenewedJob; hide BeatsWork; hide Decision;
    var w, jobs, id := h.workerID, s.stores.jobs.jobs, batch[0].id;
    var seen := jobs[id := RenewedJob(jobs[id], h, r.early)];
    var works, rt := BeatsWork(jobs[id], h, r.early), Routine(batch, phase);
    var s1: System;
    run, s1 := BeatsRun(s, h, batch, phase, r.early, r.readAt);
    StandsAfter(s, s1, w, batch, phase, rt, seen, s.target);
    var e := Decide(w, !works, r.error);
    DecideMoves(s1, r.readAt, w, batch, phase, !works, r.error);
    ReachesByStep(s1, h.workerID, r.readAt, e);
    var s2 := Step(s1, r.readAt, e);
    ReachesThen(s, h.workerID, run, s1, 0, [Tick(r.readAt, e)], s2, 0);
    run := run + [Tick(r.readAt, e)];
    var decided := Finalising(Decision(batch[0], phase, !works, r.error, r.readAt), r.readAt);
    MovesThen(s, s1, s2, w, rt, seen, s.target, Routine(batch, decided), seen, s.target);
    StandsAfter(s, s2, w, batch, phase, Routine(batch, decided), seen, s.target);
    s' := s2;
    if works {
      var late: seq<Tick>;
      late, s' := BeatsRun(s2, h, batch, decided, r.late, r.at);
      ReachesThen(s, h.workerID, run, s2, 0, late, s', 0);
      run := run + late;
      var final := seen[id := RenewedJob(seen[id], h, r.late)];
      MovesThen(s, s2, s', w, Routine(batch, decided), seen, s.target, Routine(batch, decided), final, s.target);
      assert final == jobs[id := AtFinalise(jobs[id], h, r)];
    } else {
      RoundEnds(s.now, r);
    }
  }

  lemma RoundEnds(from: Time, r: Round)
    requires RoundClock(from, r)
    ensures from <= r.readAt <= r.at
  {
  }

  /** One job, from its claim snapshot to the store's answer. */
  lemma {:induction false} RoundRun(s: System, h: Holder, batch: seq<SyncJob>, phase: Phase, r: Round, reason: string,
                                    nextRunAt: Time)
    returns (run: seq<Tick>, s': System)
    requires Stands(s, h.workerID, batch, phase) && (phase.Collecting? || phase.Next?)
    requires h.lockFor > 0 && RoundClock(s.now, r)
    ensures s'.now == r.at
    ensures Reaches(s, h.workerID, run, s', if Succeeds(s.stores.jobs.jobs[batch[0].id], h, r) then 1 else 0)
    ensures var j, id := s.stores.jobs.jobs[batch[0].id], batch[0].id;
      Moves(s, s', h.workerID, Continue(batch[1..], if Succeeds(j, h, r) then Next else Requeueing(reason, nextRunAt)),
            s.stores.jobs.jobs[id := JobAfter(j, h, s.source, batch[0], r)], DocsAfter(s.target, s.source, batch[0], r))
  {
    hide Reaches; hide Moves; hide StoresValid; hide LeaseOwned; hide RoutineOf; hide Enabled; hide Step;
    hide RoundClock; hide AtFinalise; hide Updated; hide PhaseOf; hide DocsAfter;
    var w, jobs, id := h.workerID, s.stores.jobs.jobs, batch[0].id;
    var j, docs := jobs[id], DocsAfter(s.target, s.source, batch[0], r);
    var s1: System;
    run, s1 := PhaseRun(s, w, batch, phase, r);
    var known := PhaseOf(s.source, batch[0], r);
    StandsAfter(s, s1, w, batch, phase, Routine(batch, known), jobs, docs);
    var more, s2 := VerdictRun(s1, h, batch, known, r);
    ReachesThen(s, h.workerID, run, s1, 0, more, s2, 0);
    run := run + more;
    var u, ready := Verdict(j, h, s.source, batch[0], r), jobs[id := AtFinalise(j, h, r)];
    MovesThen(s, s1, s2, w, Routine(batch, known), jobs, docs, Routine(batch, Finalising(u, r.readAt)), ready, docs);
    StandsAfter(s, s2, w, batch, phase, Routine(batch, Finalising(u, r.readAt)), ready, docs);
    FinaliseMoves(s2, r.at, w, batch, u, r.readAt, r.timedOut, reason, nextRunAt);
    var e := Finalise(w, r.timedOut, reason, nextRunAt);
    ReachesByStep(s2, h.workerID, r.at, e);
    s' := Step(s2, r.at, e);
    ReachesThen(s, h.workerID, run, s2, 0, [Tick(r.at, e)], s', if Succeeds(j, h, r) then 1 else 0);
    run := run + [Tick(r.at, e)];
    KeptID(s, s2, j, h, r, id);
    var after := jobs[id := JobAfter(j, h, s.source, batch[0], r)];
    var rt := Continue(batch[1..], if Succeeds(j, h, r) then Next else Requeueing(reason, nextRunAt));
    assert s2.stores.jobs.jobs[id] == AtFinalise(j, h, r);
    assert after == if Succeeds(j, h, r) then ready[id := Updated(ready[id], u, r.at)] else ready;
    MovesThen(s, s2, s', w, Routine(batch, Finalising(u, r.readAt)), ready, docs, rt, after, docs);
  }

  lemma KeptID(s: System, s2: System, j: SyncJob, h: Holder, r: Round, id: string)
    requires StoresValid(s.stores) && id in s.stores.jobs.jobs && j == s.stores.jobs.jobs[id]
    ensures j.id == id && AtFinalise(j, h, r).id == id
  {
    FinaliseSeesTheJob(j, h, r);
  }

  // ----- A whole drain -----

  /** The first n releases come from the given instant on, in order. */
  ghost predicate Ascend(from: Time, releases: seq<Release>, n: nat) {
    && n <= |releases|
    && (forall i | 0 <= i < n :: from <= releases[i].at)
    && (forall i, k | 0 <= i < k < n :: releases[i].at <= releases[k].at)
  }

  /** The jobs a routine gives back, one event each. */
  lemma {:induction false} ReleasesRun(s: System, w: string, batch: seq<SyncJob>, reason: string, nextRunAt: Time,
                                       releases: seq<Release>)
    returns (run: seq<Tick>, s': System)
    requires StoresValid(s.stores) && RoutineOf(s, w) == Continue(batch, Requeueing(reason, nextRunAt))
    requires KnownJobs(s.stores.jobs.jobs, batch) && Ascend(s.now, releases, |batch|)
    ensures Reaches(s, w, run, s', 0)
    ensures Moves(s, s', w, IDLE, ReleaseAll(s.stores.jobs.jobs, w, batch, reason, nextRunAt, releases), s.target)
    decreases |batch|
  {
    hide Reaches; hide StoresValid; hide LeaseOwned; hide RoutineOf; hide Enabled; hide Step; hide ReleasedJob;
    hide Legal; hide Run;
    var jobs := s.stores.jobs.jobs;
    if batch == [] {
      run, s' := [], s;
      ReachesItself(s, w);
    } else {
      var id, at, phase := batch[0].id, releases[0].at, Requeueing(reason, nextRunAt);
      assert releases[0] == Release(releases[0].failed, at);
      RequeueMoves(s, at, w, batch, reason, nextRunAt, releases[0].failed);
      var e := Requeue(w, releases[0].failed);
      ReachesByStep(s, w, at, e);
      var s1, next := Step(s, at, e), jobs[id := ReleasedJob(jobs[id], w, reason, nextRunAt, releases[0])];
      var rest: seq<Tick>;
      rest, s' := ReleasesRun(s1, w, batch[1..], reason, nextRunAt, releases[1..]);
      run := [Tick(at, e)] + rest;
      ReachesThen(s, w, [Tick(at, e)], s1, 0, rest, s', 0);
    }
  }

  /** The clock readings of the part of a script that a drain uses, in the order in which they are made. */
  ghost predicate DrainClock(from: Time, jobs: map<string, SyncJob>, h: Holder, source: map<string, Document>,
                             batch: seq<SyncJob>, rounds: seq<Round>, releases: seq<Release>)
    requires KnownJobs(jobs, batch) && |batch| <= |rounds| && |batch| <= |releases|
    decreases |batch|
  {
    batch == []
    || if rounds[0].cancelled then Ascend(from, releases, |batch|)
       else
         && RoundClock(from, rounds[0])
         && var id := batch[0].id;
            if RoundError(jobs[id], h, rounds[0]).Some? then Ascend(rounds[0].at, releases[1..], |batch| - 1)
            else DrainClock(rounds[0].at, jobs[id := JobAfter(jobs[id], h, source, batch[0], rounds[0])], h, source,
                            batch[1..], rounds[1..], releases[1..])
  }

  lemma SucceedsWithoutError(j: SyncJob, h: Holder, r: Round)
    ensures Succeeds(j, h, r) <==> RoundError(j, h, r).None?
  {
  }

  /** Draining a batch, however it ends, is a run of the protocol: same stores, same target, and a routine
      that is idle again. It makes at least as many productive steps as it gets past jobs. */
  lemma {:induction false} DrainIsRun(s: System, h: Holder, batch: seq<SyncJob>, phase: Phase, rounds: seq<Round>,
                                      readAt: Time, releases: seq<Release>)
    returns (run: seq<Tick>, s': System)
    requires StoresValid(s.stores) && RoutineOf(s, h.workerID) == Continue(batch, phase) && h.lockFor > 0
    requires phase.Collecting? || phase.Next?
    requires KnownJobs(s.stores.jobs.jobs, batch) && |batch| <= |rounds| && |batch| <= |releases|
    requires DrainClock(s.now, s.stores.jobs.jobs, h, s.source, batch, rounds, releases)
    ensures var o := DrainOutcome(s.stores.jobs.jobs, s.target, h, s.source, batch, rounds, readAt, releases);
      Reaches(s, h.workerID, run, s', o.stop) && Moves(s, s', h.workerID, IDLE, o.jobs, o.docs)
    decreases |batch|
  {
    hide Reaches; hide StoresValid; hide RoutineOf; hide JobAfter; hide RoundClock; hide Ascend; hide DocsAfter;
    hide ReleaseAll; hide RoundError; hide Succeeds; hide Message; hide Enabled; hide Step; hide Legal; hide Run;
    hide ProductiveSteps; hide Moves;
    if batch == [] {
      MovesNowhere(s, h.workerID);
      ReachesItself(s, h.workerID);
      run, s' := [], s;
    } else if rounds[0].cancelled {
      run, s' := GiveUp(s, h.workerID, batch, phase, Message(ContextDone), readAt, releases);
    } else {
      var j, err := s.stores.jobs.jobs[batch[0].id], RoundError(s.stores.jobs.jobs[batch[0].id], h, rounds[0]);
      SucceedsWithoutError(j, h, rounds[0]);
      var reason := if err.Some? then Message(err.value) else "";
      var first: seq<Tick>, more: seq<Tick>, s1: System;
      first, s1 := RoundRun(s, h, batch, phase, rounds[0], reason, readAt);
      var rest := batch[1..];
      var rt := Continue(rest, if Succeeds(j, h, rounds[0]) then Next else Requeueing(reason, readAt));
      var jobs1 := s.stores.jobs.jobs[batch[0].id := JobAfter(j, h, s.source, batch[0], rounds[0])];
      var docs1 := DocsAfter(s.target, s.source, batch[0], rounds[0]);
      WhatMoved(s, s1, h.workerID, rt, jobs1, docs1);
      RestIsKnown(s.stores.jobs.jobs, s1.stores.jobs.jobs, batch);
      if err.Some? {
        more, s' := ReleasesRun(s1, h.workerID, rest, reason, readAt, releases[1..]);
        ReachesThen(s, h.workerID, first, s1, 0, more, s', 0);
      } else {
        more, s' := DrainIsRun(s1, h, rest, Next, rounds[1..], readAt, releases[1..]);
        var o1 := DrainOutcome(s1.stores.jobs.jobs, s1.target, h, s1.source, rest, rounds[1..], readAt, releases[1..]);
        ReachesThen(s, h.workerID, first, s1, 1, more, s', o1.stop);
      }
      run := first + more;
      var o := DrainOutcome(s.stores.jobs.jobs, s.target, h, s.source, batch, rounds, readAt, releases);
      MovesThen(s, s1, s', h.workerID, rt, jobs1, docs1, IDLE, o.jobs, o.docs);
    }
  }

  lemma RestIsKnown(jobs: map<string, SyncJob>, jobs': map<string, SyncJob>, batch: seq<SyncJob>)
    requires KnownJobs(jobs, batch) && jobs'.Keys == jobs.Keys && batch != []
    ensures KnownJobs(jobs', batch[1..])
  {
  }

  /** A routine that stops before its first job gives everything back. */
  lemma {:induction false} GiveUp(s: System, w: string, batch: seq<SyncJob>, phase: Phase, reason: string, readAt: Time,
                                  releases: seq<Release>)
    returns (run: seq<Tick>, s': System)
    requires Stands(s, w, batch, phase) && (phase.Collecting? || phase.Next?)
    requires KnownJobs(s.stores.jobs.jobs, batch) && Ascend(s.now, releases, |batch|)
    ensures Reaches(s, w, run, s', 0)
    ensures Moves(s, s', w, IDLE, ReleaseAll(s.stores.jobs.jobs, w, batch, reason, readAt, releases), s.target)
  {
    hide Reaches; hide StoresValid; hide RoutineOf; hide Enabled; hide Step; hide Ascend; hide ReleaseAll;
    hide KnownJobs;
    CancelMoves(s, s.now, w, batch, phase, reason, readAt);
    var e := Cancel(w, reason, readAt);
    ReachesByStep(s, w, s.now, e);
    var s1 := Step(s, s.now, e);
    var more: seq<Tick>;
    more, s' := ReleasesRun(s1, w, batch, reason, readAt, releases);
    ReachesThen(s, w, [Tick(s.now, e)], s1, 0, more, s', 0);
    run := [Tick(s.now, e)] + more;
  }

  // ----- Claiming -----

  lemma {:induction false} ClaimMoves(s: System, at: Time, w: string, syncID: string, limit: int, lockFor: int)
    requires StoresValid(s.stores) && RoutineOf(s, w) == IDLE && at >= s.now && limit > 0 && lockFor > 0
    ensures Enabled(s, at, ClaimJobs(w, syncID, limit, lockFor))
    ensures var s' := Step(s, at, ClaimJobs(w, syncID, limit, lockFor));
      && s'.now == at
      && Moves(s, s', w, Continue(BatchOf(s.stores.jobs, syncID, w, limit, at, at + lockFor), Collecting),
               AfterBatch(s.stores.jobs, syncID, w, limit, at, at + lockFor).jobs, s.target)
  {
    hide D.DeltasValid; hide Mapped; hide BatchOf; hide LeaseAll; hide ClaimQueue;
    var claimed := BatchOf(s.stores.jobs, syncID, w, limit, at, at + lockFor);
    assert [] + claimed == claimed;
  }

  /** One turn of the claim loop: a claim of a single job, which the routine adds to those it holds. */
  lemma {:induction false} SingleClaimMoves(s: System, at: Time, w: string, syncID: string, lockFor: int,
                                            held: seq<SyncJob>, next: SyncJob)
    requires StoresValid(s.stores) && RoutineOf(s, w) == Continue(held, Collecting) && at >= s.now && lockFor > 0
    requires NextJob(s.stores.jobs, syncID, w, at, at + lockFor) == Some(next)
    requires Current([next], held)
    ensures Enabled(s, at, ClaimJobs(w, syncID, 1, lockFor))
    ensures var s' := Step(s, at, ClaimJobs(w, syncID, 1, lockFor));
      && s'.now == at
      && Moves(s, s', w, Continue(held + [next], Collecting),
               AfterClaim(s.stores.jobs, syncID, w, at, at + lockFor).jobs, s.target)
  {
    hide D.DeltasValid; hide Mapped; hide BatchOf; hide AfterBatch; hide AfterClaim; hide NextJob; hide Keyed;
    C.ClaimTakesOne(s.stores.jobs, syncID, w, at, at + lockFor);
    OneIsSingle(s.stores.jobs, syncID, w, at, at + lockFor);
  }

  lemma OneIsSingle(t: JobTable, syncID: string, w: string, now: Time, until: Time)
    requires Keyed(t.jobs) && now < until && NextJob(t, syncID, w, now, until).Some?
    ensures BatchOf(t, syncID, w, 1, now, until) == [NextJob(t, syncID, w, now, until).value]
    ensures AfterBatch(t, syncID, w, 1, now, until) == AfterClaim(t, syncID, w, now, until)
  {
    hide NextJob; hide AfterClaim; hide BatchOf; hide AfterBatch; hide Keyed;
    C.BatchIsSingles(t, syncID, w, 1, now, until);
    var t1 := AfterClaim(t, syncID, w, now, until);
    assert C.SinglesOf(t1, syncID, w, 0, now, until) == [] && C.AfterSingles(t1, syncID, w, 0, now, until) == t1;
  }

  /** The snapshots held carry the stored attempt counts: claims do not change these. */
  ghost predicate UpToDate(jobs: map<string, SyncJob>, held: seq<SyncJob>) {
    forall k | 0 <= k < |held| :: held[k].id in jobs && jobs[held[k].id].attemptCount == held[k].attemptCount
  }

  /** The first n claims are made from the given instant on, in order. */
  ghost predicate LoopClock(from: Time, ws: seq<L.Attempt>, lockFor: int, n: nat) {
    && n <= |ws|
    && (forall i | 0 <= i < n :: from <= ws[i].now && ws[i].until == ws[i].now + lockFor)
    && (forall i, k | 0 <= i < k < n :: ws[i].now <= ws[k].now)
  }

  /** A loop of single claims, up to its end or its first fault, is a run of the protocol with claims of one
      job each. */
  lemma {:induction false} LoopIsRun(s: System, w: string, syncID: string, lockFor: int, held: seq<SyncJob>,
                                     ws: seq<L.Attempt>)
    returns (run: seq<Tick>, s': System)
    requires StoresValid(s.stores) && RoutineOf(s, w) == Continue(held, Collecting) && lockFor > 0
    requires LoopClock(s.now, ws, lockFor, |L.LoopOf(s.stores.jobs, syncID, w, ws)|)
    requires UpToDate(s.stores.jobs.jobs, held)
    ensures var n := |L.LoopOf(s.stores.jobs, syncID, w, ws)|;
      Reaches(s, w, run, s', 0) && s'.now == if n == 0 then s.now else ws[n - 1].now
    ensures Moves(s, s', w, Continue(held + L.LoopOf(s.stores.jobs, syncID, w, ws), Collecting),
                  L.AfterLoop(s.stores.jobs, syncID, w, ws).jobs, s.target)
    decreases |ws|
  {
    hide Reaches; hide StoresValid; hide RoutineOf; hide Enabled; hide Step; hide NextJob; hide AfterClaim;
    hide UpToDate; hide Claimable; hide Claimed;
    var t := s.stores.jobs;
    assert Keyed(t.jobs) by { StoresAreKeyed(s.stores); }
    hide Keyed;
    if L.Ends(t, syncID, w, ws) {
      ReachesItself(s, w);
      assert held + [] == held;
      run, s' := [], s;
    } else {
      var at, next := ws[0].now, NextJob(t, syncID, w, ws[0].now, ws[0].until).value;
      C.ClaimTakesOne(t, syncID, w, at, ws[0].until);
      NextIsCurrent(t.jobs, held, next, w, at, ws[0].until);
      var e := ClaimJobs(w, syncID, 1, lockFor);
      SingleClaimMoves(s, at, w, syncID, lockFor, held, next);
      ReachesByStep(s, w, at, e);
      var s1, now' := Step(s, at, e), held + [next];
      assert s1.stores.jobs == AfterClaim(t, syncID, w, at, ws[0].until);
      var more: seq<Tick>;
      more, s' := LoopIsRun(s1, w, syncID, lockFor, now', ws[1..]);
      ReachesThen(s, w, [Tick(at, e)], s1, 0, more, s', 0);
      run := [Tick(at, e)] + more;
      assert now' + L.LoopOf(s1.stores.jobs, syncID, w, ws[1..])
          == held + ([next] + L.LoopOf(s1.stores.jobs, syncID, w, ws[1..]));
    }
  }

  lemma NextIsCurrent(jobs: map<string, SyncJob>, held: seq<SyncJob>, next: SyncJob, w: string, now: Time, until: Time)
    requires UpToDate(jobs, held) && next.id in jobs && next == Claimed(jobs[next.id], w, now, until)
    ensures Current([next], held) && UpToDate(jobs[next.id := next], held + [next])
  {
  }

  lemma StoresAreKeyed(st: Stores)
    requires StoresValid(st)
    ensures Keyed(st.jobs.jobs)
  {
  }

  /** How many jobs a claim loop claims before it ends or fails. */
  ghost function LoopLength(before: JobTable, config: WorkerConfig, w: string, c: Cycle, size: nat): (n: nat)
    requires Keyed(before.jobs) && size <= |c.claims|
    ensures n <= size
  {
    |L.LoopOf(before, config.syncID, w, ClaimAttempts(c.claims[..size], config.lockFor))|
  }

  /** When a routine has made the last of its n successful claims. */
  function ClaimEnd(from: Time, c: Cycle, n: nat): Time
    requires 0 < |c.claims| && n <= |c.claims|
  {
    if c.batched then c.claims[0].now else if n == 0 then from else c.claims[n - 1].now
  }

  /** A batch is claimed from the given instant on, or the n successful claims of a loop are, in order. */
  predicate ClaimClock(from: Time, c: Cycle, n: nat) {
    && 0 < |c.claims| && n <= |c.claims|
    && if c.batched then from <= c.claims[0].now
       else (forall i | 0 <= i < n :: from <= c.claims[i].now)
            && forall i, k | 0 <= i < k < n :: c.claims[i].now <= c.claims[k].now
  }

  /** Claiming a batch is a run of the protocol: one claim of the whole batch, or claims of one job each; and if
      one of these fails, the jobs claimed before it are given back. */
  lemma {:induction false} ClaimIsRun(s: System, w: string, config: WorkerConfig, c: Cycle, leased: JobTable,
                                      r: Result<seq<SyncJob>>, size: nat)
    returns (run: seq<Tick>, s': System)
    requires StoresValid(s.stores) && RoutineOf(s, w) == IDLE && config.lockFor > 0
    requires size == EffectiveBatchSize(config)
    requires CycleFits(c, size) && ClaimClock(s.now, c, LoopLength(s.stores.jobs, config, w, c, size))
    requires ClaimOutcome(s.stores.jobs, leased, config.syncID, w, size, config.lockFor, c, r)
    requires var n := LoopLength(s.stores.jobs, config, w, c, size);
      !c.batched && r.Err? ==> Ascend(ClaimEnd(s.now, c, n), c.releases, n)
    ensures r.Ok? ==> |r.value| <= size
    ensures Reaches(s, w, run, s', 0) && (r.Ok? ==> s'.now <= ClaimEnd(s.now, c, |r.value|))
    ensures Moves(s, s', w, if r.Ok? then Continue(r.value, Collecting) else IDLE, leased.jobs, s.target)
    ensures leased == s.stores.jobs.(jobs := leased.jobs)
  {
    hide Reaches; hide StoresValid; hide RoutineOf; hide Enabled; hide Step; hide BatchOf; hide LeaseAll;
    hide ClaimQueue; hide Keyed; hide L.LoopOutcome; hide L.AfterLoop; hide L.LoopOf; hide Ascend;
    if !c.batched {
      run, s' := OneByOneIsRun(s, w, config, c, leased, r, size);
    } else if c.claims[0].cancelled {
      ReachesItself(s, w);
      run, s' := [], s;
    } else {
      var at, e := c.claims[0].now, ClaimJobs(w, config.syncID, size, config.lockFor);
      assert Keyed(s.stores.jobs.jobs) by { StoresAreKeyed(s.stores); }
      C.BatchIsAscending(s.stores.jobs, config.syncID, w, size, at, at + config.lockFor);
      ClaimMoves(s, at, w, config.syncID, size, config.lockFor);
      ReachesByStep(s, w, at, e);
      run, s' := [Tick(at, e)], Step(s, at, e);
    }
  }

  lemma {:induction false} OneByOneIsRun(s: System, w: string, config: WorkerConfig, c: Cycle, leased: JobTable,
                                         r: Result<seq<SyncJob>>, size: nat)
    returns (run: seq<Tick>, s': System)
    requires StoresValid(s.stores) && RoutineOf(s, w) == IDLE && config.lockFor > 0 && !c.batched
    requires CycleFits(c, size) && ClaimClock(s.now, c, LoopLength(s.stores.jobs, config, w, c, size))
    requires L.LoopOutcome(s.stores.jobs, leased, config.syncID, w, ClaimAttempts(c.claims[..size], config.lockFor),
                           c.readAt, c.releases, r)
    requires var n := LoopLength(s.stores.jobs, config, w, c, size);
      r.Err? ==> Ascend(ClaimEnd(s.now, c, n), c.releases, n)
    ensures r.Ok? ==> |r.value| <= size
    ensures Reaches(s, w, run, s', 0) && (r.Ok? ==> s'.now <= ClaimEnd(s.now, c, |r.value|))
    ensures Moves(s, s', w, if r.Ok? then Continue(r.value, Collecting) else IDLE, leased.jobs, s.target)
    ensures leased == s.stores.jobs.(jobs := leased.jobs)
  {
    hide Reaches; hide StoresValid; hide RoutineOf; hide Keyed; hide L.AfterLoop; hide L.LoopOf; hide L.LoopError;
    hide Message;
    var ws := ClaimAttempts(c.claims[..size], config.lockFor);
    var claimed := L.LoopOf(s.stores.jobs, config.syncID, w, ws);
    assert LoopClock(s.now, ws, config.lockFor, |claimed|);
    assert UpToDate(s.stores.jobs.jobs, []) && [] + claimed == claimed;
    run, s' := LoopIsRun(s, w, config.syncID, config.lockFor, [], ws);
    if r.Err? && claimed != [] {
      var more: seq<Tick>, s1: System;
      s1 := s';
      more, s' := GiveUp(s1, w, claimed, Collecting, Message(r.error), c.readAt, c.releases);
      ReachesThen(s, w, run, s1, 0, more, s', 0);
      run := run + more;
    }
  }

  // ----- A whole cycle -----

  lemma {:induction false} EarlierStart(from: Time, to: Time, jobs: map<string, SyncJob>, h: Holder,
                                        source: map<string, Document>, batch: seq<SyncJob>, rounds: seq<Round>,
                                        releases: seq<Release>)
    requires KnownJobs(jobs, batch) && |batch| <= |rounds| && |batch| <= |releases| && from <= to
    requires DrainClock(to, jobs, h, source, batch, rounds, releases)
    ensures DrainClock(from, jobs, h, source, batch, rounds, releases)
  {
    hide RoundError; hide JobAfter;
  }

  /** The clock readings of a cycle in the order in which they are made. */
  ghost predicate CycleClock(from: Time, config: WorkerConfig, w: string, source: map<string, Document>, c: Cycle,
                             before: JobTable, leased: JobTable, r: Result<seq<SyncJob>>) {
    var size := EffectiveBatchSize(config);
    && 0 < size <= |c.claims| && Keyed(before.jobs)
    && var n := LoopLength(before, config, w, c, size);
       ClaimClock(from, c, n)
       && match r
          case Err(_) => !c.batched ==> Ascend(ClaimEnd(from, c, n), c.releases, n)
          case Ok(claimed) =>
            && KnownJobs(leased.jobs, claimed) && |claimed| <= |c.rounds| && |claimed| <= |c.releases|
            && |claimed| <= |c.claims|
            && DrainClock(ClaimEnd(from, c, |claimed|), leased.jobs, Holder(w, config.lockFor), source, claimed,
                          c.rounds, c.releases)
  }

  /** How many jobs a cycle gets past. */
  ghost function JobsPassed(docs: map<string, Document>, config: WorkerConfig, w: string, source: map<string, Document>,
                            c: Cycle, leased: JobTable, r: Result<seq<SyncJob>>): nat {
    if r.Ok? && KnownJobs(leased.jobs, r.value) && |r.value| <= |c.rounds| && |r.value| <= |c.releases|
    then DrainOutcome(leased.jobs, docs, Holder(w, config.lockFor), source, r.value, c.rounds,
                      c.readAt, c.releases).stop
    else 0
  }

  /** A routine's cycle, as the worker's methods perform it, is a run of the protocol from an idle routine to an
      idle routine, whether its claim succeeds or fails. It makes at least as many productive steps as it gets
      past jobs. */
  lemma {:induction false} CycleIsRun(s: System, w: string, config: WorkerConfig, c: Cycle, leased: JobTable,
                                      r: Result<seq<SyncJob>>, after: JobTable, docs: map<string, Document>,
                                      err: Option<Error>)
    returns (run: seq<Tick>, s': System)
    requires StoresValid(s.stores) && RoutineOf(s, w) == IDLE && config.lockFor > 0
    requires CycleOutcome(s.stores.jobs, s.target, config, w, s.source, c, leased, r, after, docs, err)
    requires CycleClock(s.now, config, w, s.source, c, s.stores.jobs, leased, r)
    ensures Reaches(s, w, run, s', JobsPassed(s.target, config, w, s.source, c, leased, r))
    ensures Moves(s, s', w, IDLE, after.jobs, docs) && s'.stores.jobs == after
  {
    hide Reaches; hide StoresValid; hide RoutineOf; hide ClaimOutcome; hide DrainOutcome; hide DrainClock; hide Ascend;
    hide ClaimClock; hide KnownJobs; hide LoopLength; hide Moves;
    var size := EffectiveBatchSize(config);
    var s1: System;
    run, s1 := ClaimIsRun(s, w, config, c, leased, r, size);
    var rt := if r.Ok? then Continue(r.value, Collecting) else IDLE;
    WhatMoved(s, s1, w, rt, leased.jobs, s.target);
    s' := s1;
    if r.Ok? {
      var h, more := Holder(w, config.lockFor), [];
      EarlierStart(s1.now, ClaimEnd(s.now, c, |r.value|), leased.jobs, h, s.source, r.value, c.rounds, c.releases);
      more, s' := DrainIsRun(s1, h, r.value, Collecting, c.rounds, c.readAt, c.releases);
      ReachesThen(s, w, run, s1, 0, more, s', JobsPassed(s.target, config, w, s.source, c, leased, r));
      run := run + more;
      MovesThen(s, s1, s', w, rt, leased.jobs, s.target, IDLE, after.jobs, docs);
    }
    JobsMoved(s, s', w, IDLE, after.jobs, docs);
  }

  lemma JobsMoved(s: System, s': System, w: string, rt: Routine, jobs: map<string, SyncJob>,
                  target: map<string, Document>)
    requires Moves(s, s', w, rt, jobs, target)
    ensures s'.stores == Stores(s.stores.deltas, s.stores.jobs.(jobs := jobs))
  {
  }

  lemma {:induction false} DispatchSteps(s: System, at: Time, syncID: string, limit: int)
    requires StoresValid(s.stores) && at >= s.now
    ensures var e := Env(DispatchPending(syncID, limit));
      && Enabled(s, at, e) && !Adds(e)
      && (Selection(s.stores, syncID, limit) != [] ==> Productive(s, at, e))
      && var s1 := Step(s, at, e);
         && s1.stores == AfterDispatch(s.stores, syncID, limit, at) && s1.now == at && s1.source == s.source
         && s1.target == s.target && s1.routines == s.routines
  {
    hide StoresValid; hide AfterDispatch; hide Selection;
  }

  /** What a dispatch before the cycle leaves, if there is a dispatcher. */
  ghost function Dispatched(st: Stores, config: WorkerConfig, dispatches: bool, at: Time): Stores
    requires StoresValid(st)
  {
    if dispatches then AfterDispatch(st, config.syncID, EffectivePullSize(config), at) else st
  }

  /** One for a dispatch that finds a pending delta. */
  ghost function DeltasFound(st: Stores, config: WorkerConfig, dispatches: bool): nat
    requires StoresValid(st)
  {
    if dispatches && F.PendingIDs(st.deltas.deltas, config.syncID) != {} then 1 else 0
  }

  /** A whole `RunOnce` of a worker with one routine is a run of the protocol. It lowers the backlog's measure by
      at least the jobs it gets past, and by one more if its dispatch finds a pending delta, whether its claim
      succeeds or fails: a finite backlog is used up in finitely many cycles that do anything. */
  lemma {:induction false} CycleDrains(s: System, at: Time, dispatches: bool, w: string, config: WorkerConfig, c: Cycle,
                                       st: Stores, leased: JobTable, r: Result<seq<SyncJob>>, after: JobTable,
                                       docs: map<string, Document>, err: Option<Error>)
    returns (run: seq<Tick>, s': System)
    requires Inv(s) && RoutineOf(s, w) == IDLE && config.lockFor > 0 && s.now <= at
    requires st == Dispatched(s.stores, config, dispatches, at)
    requires CycleOutcome(st.jobs, s.target, config, w, s.source, c, leased, r, after, docs, err)
    requires CycleClock(at, config, w, s.source, c, st.jobs, leased, r)
    ensures Reaches(s, w, run, s', 0) && Inv(s')
    ensures s'.stores == Stores(st.deltas, after) && s'.target == docs && s'.source == s.source
    ensures RoutineOf(s', w) == IDLE
    ensures Measure(s'.stores) + JobsPassed(s.target, config, w, s.source, c, leased, r)
            + DeltasFound(s.stores, config, dispatches) <= Measure(s.stores)
  {
    hide StoresValid; hide Enabled; hide Step; hide CycleOutcome; hide CycleClock; hide AfterDispatch; hide Selection;
    hide Legal; hide Run; hide ProductiveSteps; hide Measure; hide Adds; hide JobsPassed;
    assert StoresValid(s.stores);
    var passed := JobsPassed(s.target, config, w, s.source, c, leased, r);
    if dispatches {
      var e := Env(DispatchPending(config.syncID, EffectivePullSize(config)));
      DispatchSteps(s, at, config.syncID, EffectivePullSize(config));
      PullFeedsTheRoutines(config);
      M.SelectionFindsPending(s.stores, config.syncID, EffectivePullSize(config));
      ReachesByStep(s, w, at, e);
      var s1 := Step(s, at, e);
      assert RoutineOf(s1, w) == IDLE;
      var more: seq<Tick>;
      more, s' := CycleIsRun(s1, w, config, c, leased, r, after, docs, err);
      run := [Tick(at, e)] + more;
      ReachesThen(s, w, [Tick(at, e)], s1, DeltasFound(s.stores, config, dispatches), more, s', passed);
    } else {
      LaterClock(s.now, at, config, w, s.source, c, st.jobs, leased, r);
      run, s' := CycleIsRun(s, w, config, c, leased, r, after, docs, err);
    }
    BacklogDrains(s, run);
    RunInv(s, run);
  }

  lemma LaterClock(from: Time, at: Time, config: WorkerConfig, w: string, source: map<string, Document>, c: Cycle,
                   before: JobTable, leased: JobTable, r: Result<seq<SyncJob>>)
    requires from <= at && CycleClock(at, config, w, source, c, before, leased, r)
    ensures CycleClock(from, config, w, source, c, before, leased, r)
  {
    hide DrainClock; hide LoopLength;
    if r.Ok? {
      EarlierStart(ClaimEnd(from, c, |r.value|), ClaimEnd(at, c, |r.value|), leased.jobs, Holder(w, config.lockFor),
                   source, r.value, c.rounds, c.releases);
    }
  }

  /** The worker's `RunOnce` on its stores, in step with a system that holds the same stores, source and target:
      afterwards the system a run of the protocol leads to holds them again, and the backlog has shrunk. */
  method RunOnceInStep(worker: SyncWorker, dispatcher: MemoryDispatchStore, cancelled: bool, at: Time, c: Cycle,
                       ghost s: System)
    returns (err: Option<Error>, ghost run: seq<Tick>, ghost s': System, ghost passed: nat)
    requires dispatcher.Valid() && dispatcher.jobStore == worker.jobStore && worker.config.concurrency <= 1
    requires Inv(s) && s.stores == dispatcher.Tables() && s.target == worker.target.docs && s.source == worker.source
    requires RoutineOf(s, worker.config.workerID) == IDLE && s.now <= at
    requires CycleFits(c, EffectiveBatchSize(worker.config))
    requires forall leased, r | ClaimOutcome(Dispatched(s.stores, worker.config, true, at).jobs, leased,
                                             worker.config.syncID, worker.config.workerID,
                                             EffectiveBatchSize(worker.config), worker.config.lockFor, c, r) ::
               CycleClock(at, worker.config, worker.config.workerID, s.source, c,
                          Dispatched(s.stores, worker.config, true, at).jobs, leased, r)
    modifies worker.jobStore, worker.target, dispatcher.deltaStore
    ensures Reaches(s, worker.config.workerID, run, s', 0) && Inv(s')
    ensures s'.stores == dispatcher.Tables() && s'.target == worker.target.docs && s'.source == worker.source
    ensures RoutineOf(s', worker.config.workerID) == IDLE
    ensures Measure(s'.stores) + passed <= Measure(s.stores)
    ensures ConfigValid(worker.config) && !cancelled ==>
              Measure(s'.stores) + passed + DeltasFound(s.stores, worker.config, true) <= Measure(s.stores)
  {
    hide D.DeltasValid; hide JobsValid; hide Inv; hide Reaches; hide RoutineOf; hide CycleClock; hide ClaimOutcome;
    hide DrainOutcome; hide AfterDispatch; hide Selection; hide Measure; hide JobsPassed;
    assert StoresValid(s.stores) by { InvStores(s); }
    ghost var table, leased, r;
    err, table, leased, r := worker.RunOnce(dispatcher, cancelled, at, c);
    run, s', passed := [], s, 0;
    if !ConfigValid(worker.config) || cancelled {
      ReachesItself(s, worker.config.workerID);
    } else {
      ghost var config := worker.config;
      passed := JobsPassed(s.target, config, config.workerID, s.source, c, leased, r);
      run, s' := CycleDrains(s, at, true, config.workerID, config, c, Dispatched(s.stores, config, true, at), leased, r,
                             worker.jobStore.Table(), worker.target.docs, err);
    }
  }
}
