/** The worker protocol: dispatch, claim, project, apply, finalise, requeue, by any number of routines,
    interleaved at the granularity of one atomic store call or one read of the source, one write of the
    target or one clock read. Cancellation, heartbeats, timeouts and failures of the application's
    projector and applier are inputs of the events. */
module Protocol {
  import opened Types
  import opened Jobs
  import opened Dispatch
  import opened Runs
  import D = Deltas

  // ----- The worker's pure decisions -----

  function WorkerBackoff(attempt: int): int {
    if attempt <= 1 then 5 * SECOND
    else if attempt == 2 then 30 * SECOND
    else if attempt == 3 then 120 * SECOND
    else 300 * SECOND
  }

  /** `failOrRetryWithWorker`: dead or retrying is decided from the routine's snapshot of the job. */
  function FailOrRetry(snapshot: SyncJob, error: string, clock: Time): LeaseUpdate {
    var nextAttempt := snapshot.attemptCount + 1;
    if nextAttempt >= snapshot.maxAttempts then MarkDead(error)
    else MarkRetrying(error, clock + WorkerBackoff(nextAttempt))
  }

  /** A job that fails for the n-th time with attempts left waits 5, 30 and 120 seconds for n = 1, 2 and 3, and 300
      seconds from then on, all from the worker's clock; without attempts left it is dead. */
  lemma FailureWaits(snapshot: SyncJob, error: string, clock: Time, n: int)
    requires n == snapshot.attemptCount + 1
    ensures FailOrRetry(snapshot, error, clock)
         == if n >= snapshot.maxAttempts then MarkDead(error)
            else MarkRetrying(error, clock + if n <= 1 then 5_000_000_000 else if n == 2 then 30_000_000_000
                                             else if n == 3 then 120_000_000_000 else 300_000_000_000)
  {
  }

  // ----- The application's side -----

  type Document = string

  const CUSTOMER: string := "Customer"

  /** `customerIDFromKey` */
  function CustomerOf(key: ProjectionKey): Option<string> {
    if "customer_id" in key && key["customer_id"].JsonString? && key["customer_id"].text != ""
    then Some(key["customer_id"].text) else None
  }

  datatype Fetched = Found(doc: Document) | Missing | Broken

  /** `sourceStore.project`: the latest state of an identity, a ghost, or an error. */
  function ProjectFrom(source: map<string, Document>, projectionType: string, key: ProjectionKey): Fetched {
    if projectionType != CUSTOMER || CustomerOf(key).None? then Broken
    else if CustomerOf(key).value in source then Found(source[CustomerOf(key).value])
    else Missing
  }

  /** `targetIndex.apply`: upsert what was found, delete what was not. */
  function ApplyTo(target: map<string, Document>, key: ProjectionKey, f: Fetched): map<string, Document> {
    if CustomerOf(key).None? then target
    else match f
      case Found(doc) => target[CustomerOf(key).value := doc]
      case Missing => target - {CustomerOf(key).value}
      case Broken => target
  }

  // ----- The state -----

  /** Where a routine stands with the first job of its batch. */
  datatype Phase =
    | Collecting
    | Next
    | Projected(fetched: Fetched)
    | Applied(ok: bool, ghostDetected: bool)
    | Finalising(update: LeaseUpdate, readAt: Time)
    | Requeueing(reason: string, nextRunAt: Time)

  /** The snapshots a routine still has to process; none means the routine is idle. */
  datatype Routine = Routine(jobs: seq<SyncJob>, phase: Phase)

  const IDLE := Routine([], Collecting)

  function Continue(jobs: seq<SyncJob>, phase: Phase): Routine {
    if jobs == [] then IDLE else Routine(jobs, phase)
  }

  /** A recorded failure: the worker's clock when it decided, from which a retry's backoff counts, and the
      store's clock when it recorded the decision. */
  datatype Failure = Failure(decidedAt: Time, recordedAt: Time)

  /** `failures` is a history variable: the recorded failures of each job, in order. */
  datatype System = System(
    now: Time,
    stores: Stores,
    routines: map<string, Routine>,
    source: map<string, Document>,
    target: map<string, Document>,
    failures: map<string, seq<Failure>>)

  function RoutineOf(s: System, r: string): Routine {
    if r in s.routines then s.routines[r] else IDLE
  }

  // ----- Events -----

  datatype Event =
    | Env(call: Call)
    | ChangeSource(customer: string, doc: Option<Document>, delta: Delta)
    | ClaimJobs(routine: string, syncID: string, limit: int, lockFor: int)
    | Heartbeat(routine: string, lockFor: int)
    | Project(routine: string, broken: bool)
    | Apply(routine: string, ok: bool, effect: bool)
    | Decide(routine: string, heartbeatFailed: bool, error: string)
    | Finalise(routine: string, timedOut: bool, reason: string, nextRunAt: Time)
    | Cancel(routine: string, reason: string, nextRunAt: Time)
    | Requeue(routine: string, timedOut: bool)
    | Abandon(routine: string)

  datatype Tick = Tick(at: Time, event: Event)

  /** A job a caller may create directly: fresh, and not an outbox job, which dispatch creates. */
  predicate FreshJob(j: SyncJob) {
    && !j.origin.Outbox? && (j.state.Unset? || j.state.Pending?)
    && j.attemptCount == 0 && j.maxAttempts >= 0 && j.lockedBy.None? && j.lockedUntil.None?
  }

  /** The calls made by producers, dispatchers and operators. */
  predicate EnvCall(c: Call) {
    match c
    case Enqueue(_) | EnqueueBatch(_) | DispatchPending(_, _) | Operate(_, _) => true
    case Create(job) => FreshJob(job)
    case MarkDispatched(_) | Claim(_, _, _, _) | Update(_, _, _) => false
  }

  /** The delta a source change must enqueue with it: same customer, no dedup window. */
  predicate Signals(config: D.DeltaConfig, d: Delta, customer: string) {
    && d.id == "" && (d.state.DeltaUnset? || d.state.DeltaPending?) && d.dedupWindow == ""
    && d.projectionType == CUSTOMER && CustomerOf(d.projectionKey) == Some(customer)
    && config.keyHash(d.projectionKey).Some?
  }

  predicate NoFailureSince(snapshot: SyncJob, claimed: seq<SyncJob>) {
    forall i | 0 <= i < |claimed| && claimed[i].id == snapshot.id :: claimed[i].attemptCount == snapshot.attemptCount
  }

  /** A job that a routine claims while it holds an earlier snapshot of it has recorded no failure since. A claim
      by an idle routine always satisfies this, and so does a claim loop as long as no other routine fails a job
      between the loop's claims of it. */
  predicate Current(claimed: seq<SyncJob>, held: seq<SyncJob>) {
    forall k | 0 <= k < |held| :: NoFailureSince(held[k], claimed)
  }

  ghost predicate Enabled(s: System, at: Time, e: Event)
    requires StoresValid(s.stores)
  {
    && at >= s.now
    && match e
       case Env(call) => EnvCall(call)
       case ChangeSource(customer, _, delta) => Signals(s.stores.deltas.config, delta, customer)
       case ClaimJobs(r, syncID, limit, lockFor) =>
         && RoutineOf(s, r).phase.Collecting? && lockFor > 0 && limit > 0
         && Current(BatchOf(s.stores.jobs, syncID, r, limit, at, at + lockFor), RoutineOf(s, r).jobs)
       case Heartbeat(r, lockFor) => RoutineOf(s, r).jobs != [] && lockFor > 0
       case Project(r, _) =>
         RoutineOf(s, r).jobs != [] && (RoutineOf(s, r).phase.Collecting? || RoutineOf(s, r).phase.Next?)
       case Apply(r, _, _) =>
         RoutineOf(s, r).jobs != [] && RoutineOf(s, r).phase.Projected? && !RoutineOf(s, r).phase.fetched.Broken?
       case Decide(r, _, _) =>
         RoutineOf(s, r).jobs != [] && (RoutineOf(s, r).phase == Projected(Broken) || RoutineOf(s, r).phase.Applied?)
       case Finalise(r, _, _, _) => RoutineOf(s, r).jobs != [] && RoutineOf(s, r).phase.Finalising?
       case Cancel(r, _, _) =>
         RoutineOf(s, r).jobs != [] && (RoutineOf(s, r).phase.Collecting? || RoutineOf(s, r).phase.Next?)
       case Requeue(r, _) => RoutineOf(s, r).jobs != [] && RoutineOf(s, r).phase.Requeueing?
       case Abandon(_) => true
  }

  function Decision(snapshot: SyncJob, phase: Phase, heartbeatFailed: bool, error: string, clock: Time): LeaseUpdate
    requires phase == Projected(Broken) || phase.Applied?
  {
    if phase.Applied? && phase.ok && !heartbeatFailed then MarkSynced(phase.ghostDetected)
    else FailOrRetry(snapshot, error, clock)
  }

  /** The store call an event makes, if it makes one. */
  ghost function CallOf(s: System, at: Time, e: Event): Option<Call>
    requires StoresValid(s.stores) && Enabled(s, at, e)
  {
    match e
    case Env(call) => Some(call)
    case ChangeSource(_, _, delta) => Some(Enqueue(delta))
    case ClaimJobs(r, syncID, limit, lockFor) => Some(Claim(r, syncID, limit, lockFor))
    case Heartbeat(r, lockFor) => Some(Update(r, RoutineOf(s, r).jobs[0].id, RenewLease(lockFor)))
    case Finalise(r, timedOut, _, _) =>
      if timedOut then None else Some(Update(r, RoutineOf(s, r).jobs[0].id, RoutineOf(s, r).phase.update))
    case Requeue(r, timedOut) =>
      if timedOut then None
      else Some(Update(r, RoutineOf(s, r).jobs[0].id,
                       RequeueClaimed(RoutineOf(s, r).phase.reason, RoutineOf(s, r).phase.nextRunAt)))
    case Project(_, _) | Apply(_, _, _) | Decide(_, _, _) | Cancel(_, _, _) | Abandon(_) => None
  }

  ghost function StoresAfter(s: System, at: Time, e: Event): (st: Stores)
    requires StoresValid(s.stores) && Enabled(s, at, e)
    ensures StoresValid(st)
  {
    match CallOf(s, at, e)
    case None => s.stores
    case Some(c) => DoKeeps(s.stores, c, at); Do(s.stores, c, at)
  }

  /** Whether a finalise is accepted by the store. */
  ghost predicate Finalised(s: System, at: Time, e: Event)
    requires StoresValid(s.stores) && Enabled(s, at, e)
  {
    && e.Finalise? && !e.timedOut
    && var rt := RoutineOf(s, e.routine);
       UpdateError(s.stores.jobs, rt.jobs[0].id, e.routine, rt.phase.update, at).None?
  }

  ghost function RoutineAfter(s: System, at: Time, e: Event, r: string): Routine
    requires StoresValid(s.stores) && Enabled(s, at, e)
  {
    var rt := RoutineOf(s, r);
    if e.Env? || e.ChangeSource? || e.routine != r then rt
    else match e
      case ClaimJobs(_, syncID, limit, lockFor) =>
        Continue(rt.jobs + BatchOf(s.stores.jobs, syncID, r, limit, at, at + lockFor), Collecting)
      case Project(_, broken) =>
        Routine(rt.jobs, Projected(if broken then Broken
                                   else ProjectFrom(s.source, rt.jobs[0].projectionType, rt.jobs[0].projectionKey)))
      case Apply(_, ok, _) => Routine(rt.jobs, Applied(ok, rt.phase.fetched.Missing?))
      case Decide(_, heartbeatFailed, error) =>
        Routine(rt.jobs, Finalising(Decision(rt.jobs[0], rt.phase, heartbeatFailed, error, at), at))
      case Finalise(_, _, reason, nextRunAt) =>
        Continue(rt.jobs[1..], if Finalised(s, at, e) then Next else Requeueing(reason, nextRunAt))
      case Cancel(_, reason, nextRunAt) => Routine(rt.jobs, Requeueing(reason, nextRunAt))
      case Requeue(_, _) => Continue(rt.jobs[1..], rt.phase)
      case Abandon(_) => IDLE
      case Heartbeat(_, _) => rt
  }

  ghost function NewFailures(s: System, at: Time, e: Event, id: string): seq<Failure>
    requires StoresValid(s.stores) && Enabled(s, at, e)
  {
    if Finalised(s, at, e) && RoutineOf(s, e.routine).jobs[0].id == id then
      match RoutineOf(s, e.routine).phase.update
      case MarkRetrying(_, _) | MarkDead(_) => [Failure(RoutineOf(s, e.routine).phase.readAt, at)]
      case _ => []
    else []
  }

  ghost function Step(s: System, at: Time, e: Event): (s': System)
    requires StoresValid(s.stores) && Enabled(s, at, e)
    ensures StoresValid(s'.stores)
  {
    var stores := StoresAfter(s, at, e);
    System(
      at,
      stores,
      if e.Env? || e.ChangeSource? then s.routines else s.routines[e.routine := RoutineAfter(s, at, e, e.routine)],
      if e.ChangeSource? then SetDocument(s.source, e.customer, e.doc) else s.source,
      if e.Apply? && (e.ok || e.effect)
      then ApplyTo(s.target, RoutineOf(s, e.routine).jobs[0].projectionKey, RoutineOf(s, e.routine).phase.fetched)
      else s.target,
      map id | id in stores.jobs.jobs ::
        (if id in s.failures then s.failures[id] else []) + NewFailures(s, at, e, id))
  }

  function SetDocument(source: map<string, Document>, customer: string, doc: Option<Document>): map<string, Document> {
    match doc
    case Some(d) => source[customer := d]
    case None => source - {customer}
  }

  // ----- Runs -----

  ghost predicate Legal(s: System, run: seq<Tick>)
    requires StoresValid(s.stores)
    decreases |run|
  {
    run == [] || (Enabled(s, run[0].at, run[0].event) && Legal(Step(s, run[0].at, run[0].event), run[1..]))
  }

  ghost function Run(s: System, run: seq<Tick>): (s': System)
    requires StoresValid(s.stores) && Legal(s, run)
    ensures StoresValid(s'.stores)
    decreases |run|
  {
    if run == [] then s else Run(Step(s, run[0].at, run[0].event), run[1..])
  }

  lemma {:induction false} RunThen(s: System, a: seq<Tick>, b: seq<Tick>)
    requires StoresValid(s.stores) && Legal(s, a) && Legal(Run(s, a), b)
    ensures Legal(s, a + b) && Run(s, a + b) == Run(Run(s, a), b)
    decreases |a|
  {
    hide Step; hide Enabled;
    if a == [] {
      assert a + b == b;
    } else {
      assert (a + b)[1..] == a[1..] + b && (a + b)[0] == a[0];
      RunThen(Step(s, a[0].at, a[0].event), a[1..], b);
    }
  }

  /** Any source, any target, no delta, no job, no routine. */
  ghost predicate Initial(s: System) {
    && s.stores.deltas.nextID == 0 && s.stores.deltas.deltas == map[] && s.stores.deltas.dedup == map[]
    && s.stores.jobs == JobTable(0, map[], map[])
    && s.routines == map[] && s.failures == map[]
  }
}
