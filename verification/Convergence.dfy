/** Latest-state delivery: once the backlog is used up without a dead job, the target equals the source. */
module Convergence {
  import opened Types
  import opened Ranks
  import opened Names
  import opened Jobs
  import opened Dispatch
  import opened Runs
  import opened Protocol
  import opened Attempts
  import opened Drain
  import D = Deltas

  predicate ForCustomer(projectionType: string, key: ProjectionKey, customer: string) {
    projectionType == CUSTOMER && CustomerOf(key) == Some(customer)
  }

  predicate Waiting(d: Delta, customer: string) {
    d.state.DeltaPending? && ForCustomer(d.projectionType, d.projectionKey, customer)
  }

  predicate Open(j: SyncJob, customer: string) {
    (Live(j) || j.state.Dead?) && ForCustomer(j.projectionType, j.projectionKey, customer)
  }

  /** Something other than job `except` still stands for the customer: a pending delta, a live or a dead job. */
  ghost predicate Covered(st: Stores, customer: string, except: Option<string>) {
    || (exists id :: id in st.deltas.deltas && Waiting(st.deltas.deltas[id], customer))
    || (exists id :: id in st.jobs.jobs && Some(id) != except && Open(st.jobs.jobs[id], customer))
  }

  ghost predicate InSync(s: System, customer: string) {
    && (customer in s.target <==> customer in s.source)
    && (customer in s.source ==> s.target[customer] == s.source[customer])
  }

  ghost predicate Matches(source: map<string, Document>, customer: string, f: Fetched) {
    match f
    case Found(doc) => customer in source && source[customer] == doc
    case Missing => customer !in source
    case Broken => true
  }

  /** A routine is in flight on a customer from its read of the source to the store's answer. */
  predicate InFlight(rt: Routine, customer: string) {
    && rt.jobs != [] && (rt.phase.Projected? || rt.phase.Applied? || rt.phase.Finalising?)
    && ForCustomer(rt.jobs[0].projectionType, rt.jobs[0].projectionKey, customer)
  }

  /** The condition of convergence, checked before a routine reads the source: no other routine is in
      flight on the same customer. One routine at a time satisfies it, and so does any number of routines
      that work on different customers. */
  ghost predicate Alone(s: System, e: Event) {
    e.Project? && RoutineOf(s, e.routine).jobs != [] ==>
      var head := RoutineOf(s, e.routine).jobs[0];
      forall r, customer | r != e.routine && ForCustomer(head.projectionType, head.projectionKey, customer) ::
        !InFlight(RoutineOf(s, r), customer)
  }

  ghost predicate Serial(s: System) {
    forall r1, r2, customer | InFlight(RoutineOf(s, r1), customer) && InFlight(RoutineOf(s, r2), customer) :: r1 == r2
  }

  ghost predicate FlightInv(s: System, rt: Routine, customer: string)
    requires InFlight(rt, customer)
  {
    match rt.phase
    case Projected(f) => f.Broken? || Matches(s.source, customer, f) || Covered(s.stores, customer, Some(rt.jobs[0].id))
    case Applied(ok, _) => ok ==> InSync(s, customer) || Covered(s.stores, customer, Some(rt.jobs[0].id))
    case Finalising(u, _) => u.MarkSynced? ==> InSync(s, customer) || Covered(s.stores, customer, Some(rt.jobs[0].id))
    case _ => true
  }

  /** A pending delta has no job yet. */
  ghost predicate PendingUnmapped(st: Stores) {
    forall d | d in st.jobs.jobByDelta :: d in st.deltas.deltas && !st.deltas.deltas[d].state.DeltaPending?
  }

  /** Only a customer's job yields something to apply. */
  predicate FetchedFor(rt: Routine) {
    rt.jobs != [] && rt.phase.Projected? && !rt.phase.fetched.Broken? ==>
      CustomerOf(rt.jobs[0].projectionKey).Some? && rt.jobs[0].projectionType == CUSTOMER
  }

  ghost predicate Converging(s: System) {
    && (forall r :: FetchedFor(RoutineOf(s, r)))
    && Inv(s) && PendingUnmapped(s.stores) && Serial(s)
    && (forall customer :: InSync(s, customer) || Covered(s.stores, customer, None))
    && (forall r, customer | InFlight(RoutineOf(s, r), customer) :: FlightInv(s, RoutineOf(s, r), customer))
  }

  lemma ConvergingFacts(s: System)
    requires Converging(s)
    ensures Inv(s) && StoresValid(s.stores) && PendingUnmapped(s.stores) && (forall r :: FetchedFor(RoutineOf(s, r)))
  {
    hide JobInv; hide RoutineInv; hide InSync; hide Covered; hide InFlight; hide FlightInv; hide FetchedFor;
    hide PendingUnmapped; hide Serial;
  }

  lemma ConvergingCover(s: System, customer: string)
    requires Converging(s)
    ensures InSync(s, customer) || Covered(s.stores, customer, None)
  {
    hide Inv; hide InSync; hide Covered; hide FlightInv; hide InFlight; hide FetchedFor; hide PendingUnmapped;
    hide Serial;
  }

  lemma ConvergingFlight(s: System, r: string, customer: string)
    requires Converging(s) && InFlight(RoutineOf(s, r), customer)
    ensures FlightInv(s, RoutineOf(s, r), customer)
    ensures RoutineOf(s, r).jobs[0].id in s.stores.jobs.jobs
  {
    hide StoresValid; hide JobInv; hide InSync; hide Covered; hide FlightInv; hide PhaseInv; hide SnapshotInv;
    hide FetchedFor; hide PendingUnmapped; hide Serial; hide RoutineOf;
    InvRoutine(s, r);
  }

  // ----- The outbox through one call -----

  /** Deltas are never lost; a pending one stays as it is until a dispatch takes it. */
  lemma {:induction false} DeltasPersist(st: Stores, c: Call, now: Time, id: string)
    requires StoresValid(st) && id in st.deltas.deltas && !c.DispatchPending? && !c.MarkDispatched?
    ensures id in Do(st, c, now).deltas.deltas && Do(st, c, now).deltas.deltas[id] == st.deltas.deltas[id]
  {
    hide JobsValid; hide AfterBatch; hide AfterUpdate; hide AfterOperator; hide AfterCreate; hide D.AfterBatch;
    match c
    case Enqueue(d) => D.NextIsFresh(st.deltas);
    case EnqueueBatch(ds) => if D.Accepted(st.deltas, ds) { D.BatchInsertsNewKeys(st.deltas, ds, now); }
    case _ =>
  }

  /** A pending delta the dispatch selects gets a job of its own, with its identity. */
  lemma {:induction false} DispatchCoversItsDeltas(st: Stores, q: seq<Rank>, now: Time, i: nat)
    requires StoresValid(st) && Known(st, q) && DistinctQueue(q) && i < |q| && q[i].id !in st.jobs.jobByDelta
    ensures var st' := DispatchAll(st, q, now);
      && q[i].id in st'.jobs.jobByDelta
      && st'.jobs.jobByDelta[q[i].id] in st'.jobs.jobs
      && st'.jobs.jobByDelta[q[i].id] !in st.jobs.jobs
      && st'.jobs.jobs[st'.jobs.jobByDelta[q[i].id]]
         == NewJob(st.deltas.deltas[q[i].id], st'.jobs.jobByDelta[q[i].id], now)
  {
    var st' := DispatchAll(st, q, now);
    DispatchAllKeeps(st, q, now);
    DispatchAllCreates(st, q, now);
    DispatchAllCopiesIdentity(st, q, now);
    assert q[i].id in Ids(q);
    var id := st'.jobs.jobByDelta[q[i].id];
    assert st'.jobs.jobs[id].deltaID == Some(q[i].id) && st'.jobs.jobs[id].origin.Outbox?;
    hide NewJob; hide DispatchAll; hide Ids;
    assert id !in st.jobs.jobs;
    var k :| 0 <= k < |q| && q[k].id !in st.jobs.jobByDelta
             && st'.jobs.jobs[id] == NewJob(st.deltas.deltas[q[k].id], id, now);
    assert st.deltas.deltas[q[k].id].id == q[k].id;
  }

  // ----- Cover persists -----

  lemma OpenPersists(c: Call, id: string, j: SyncJob, j': SyncJob, at: Time, customer: string)
    requires Open(j, customer) && Change(c, id, j, j', at)
    requires j' == j || !c.Update? || !c.update.MarkSynced?
    ensures Open(j', customer)
  {
    hide TrimSpace;
    ChangeKeepsIdentity(c, id, j, j', at);
  }

  /** The event by which a routine reports a job of the customer as synced. */
  ghost predicate Syncs(s: System, at: Time, e: Event, customer: string)
    requires StoresValid(s.stores) && Enabled(s, at, e)
  {
    && Finalised(s, at, e) && RoutineOf(s, e.routine).phase.update.MarkSynced?
    && InFlight(RoutineOf(s, e.routine), customer)
  }

  lemma {:induction false} JobCoverPersists(s: System, at: Time, e: Event, customer: string, id: string)
    requires Inv(s) && Enabled(s, at, e)
    requires id in s.stores.jobs.jobs && Open(s.stores.jobs.jobs[id], customer)
    requires Syncs(s, at, e, customer) ==> RoutineOf(s, e.routine).jobs[0].id != id
    ensures id in StoresAfter(s, at, e).jobs.jobs && Open(StoresAfter(s, at, e).jobs.jobs[id], customer)
  {
    hide Inv; hide StoresValid; hide Change; hide StoresAfter; hide Open; hide SameIdentity; hide PhaseInv;
    InvStores(s);
    StoredJobChanges(s, at, e, id);
    var j, j' := s.stores.jobs.jobs[id], StoresAfter(s, at, e).jobs.jobs[id];
    if Finalises(s, at, e, id) {
      InvRoutine(s, e.routine);
      assert SameIdentity(RoutineOf(s, e.routine).jobs[0], j);
      SameCustomer(RoutineOf(s, e.routine).jobs[0], j, customer);
      OpenPersists(CallOf(s, at, e).value, id, j, j', at, customer);
    } else {
      OtherwiseQuiet(s, at, e, id);
      if j' != j {
        var c :| CallOf(s, at, e) == Some(c) && Change(c, id, j, j', at)
                 && (c.Update? ==> c.update.RenewLease? || c.update.RequeueClaimed?);
        OpenPersists(c, id, j, j', at, customer);
      }
    }
  }

  lemma SameCustomer(snapshot: SyncJob, j: SyncJob, customer: string)
    requires SameIdentity(snapshot, j) && Open(j, customer)
    ensures ForCustomer(snapshot.projectionType, snapshot.projectionKey, customer)
  {
  }

  /** A pending delta keeps covering its customer: as itself, or as the job it is dispatched to. */
  lemma {:induction false} DeltaCoverPersists(s: System, at: Time, e: Event, customer: string, id: string)
    requires StoresValid(s.stores) && PendingUnmapped(s.stores) && Enabled(s, at, e)
    requires id in s.stores.deltas.deltas && Waiting(s.stores.deltas.deltas[id], customer)
    ensures var st' := StoresAfter(s, at, e);
      || (id in st'.deltas.deltas && Waiting(st'.deltas.deltas[id], customer))
      || (exists job :: job in st'.jobs.jobs && job !in s.stores.jobs.jobs && Open(st'.jobs.jobs[job], customer))
  {
    hide StoresValid; hide Waiting; hide Open; hide PendingUnmapped; hide AfterDispatch; hide AfterBatch;
    hide AfterUpdate; hide AfterOperator; hide AfterCreate; hide D.AfterBatch; hide D.AfterEnqueue;
    var c := CallOf(s, at, e);
    if c.Some? {
      if c.value.DispatchPending? {
        DispatchedCover(s.stores, c.value.syncID, c.value.limit, at, customer, id);
      } else {
        assert !c.value.MarkDispatched?;
        DeltasPersist(s.stores, c.value, at, id);
      }
    }
  }

  lemma {:induction false} DispatchedCover(st: Stores, syncID: string, limit: int, now: Time, customer: string,
                                           id: string)
    requires StoresValid(st) && PendingUnmapped(st) && id in st.deltas.deltas && Waiting(st.deltas.deltas[id], customer)
    ensures var st' := AfterDispatch(st, syncID, limit, now);
      || (id in st'.deltas.deltas && Waiting(st'.deltas.deltas[id], customer))
      || (exists job :: job in st'.jobs.jobs && job !in st.jobs.jobs && Open(st'.jobs.jobs[job], customer))
  {
    hide StoresValid;
    var q := Selection(st, syncID, limit);
    SelectionIsDistinct(st, syncID, limit);
    DispatchAllMarks(st, q, now);
    if id in Ids(q) {
      var i :| 0 <= i < |q| && q[i].id == id;
      hide Selection; hide DispatchAll; hide Ids;
      DispatchCoversItsDeltas(st, q, now, i);
      var st' := DispatchAll(st, q, now);
      assert Open(st'.jobs.jobs[st'.jobs.jobByDelta[id]], customer);
    }
  }

  lemma {:induction false} CoverPersists(s: System, at: Time, e: Event, customer: string, except: Option<string>)
    requires Inv(s) && PendingUnmapped(s.stores) && Enabled(s, at, e)
    requires Covered(s.stores, customer, except) && (except.Some? ==> except.value in s.stores.jobs.jobs)
    requires Syncs(s, at, e, customer) ==> except == Some(RoutineOf(s, e.routine).jobs[0].id)
    ensures Covered(StoresAfter(s, at, e), customer, except)
  {
    var st := s.stores;
    hide Enabled; hide StoresAfter; hide Waiting; hide Open; hide Syncs; hide PendingUnmapped;
    if id :| id in st.deltas.deltas && Waiting(st.deltas.deltas[id], customer) {
      DeltaCoverPersists(s, at, e, customer, id);
    } else {
      var id :| id in st.jobs.jobs && Some(id) != except && Open(st.jobs.jobs[id], customer);
      JobCoverPersists(s, at, e, customer, id);
    }
  }

  /** A source change covers its customer in the same step. */
  lemma {:induction false} ChangeCovers(s: System, at: Time, e: Event, except: Option<string>)
    requires StoresValid(s.stores) && Enabled(s, at, e) && e.ChangeSource?
    ensures Covered(StoresAfter(s, at, e), e.customer, except)
  {
    var t := s.stores.deltas;
    D.NextIsFresh(t);
    assert Waiting(StoresAfter(s, at, e).deltas.deltas[Name(D.DELTA, t.nextID + 1)], e.customer);
  }

  // ----- The pieces of the invariant through one event -----

  lemma {:induction false} UnmappedStep(s: System, at: Time, e: Event)
    requires StoresValid(s.stores) && PendingUnmapped(s.stores) && Enabled(s, at, e)
    ensures PendingUnmapped(StoresAfter(s, at, e))
  {
    var st, st', c := s.stores, StoresAfter(s, at, e), CallOf(s, at, e);
    if c.Some? {
      if c.value.DispatchPending? {
        var q := Selection(st, c.value.syncID, c.value.limit);
        DispatchAllMarks(st, q, at);
        DispatchAllCreates(st, q, at);
      } else {
        SameMapping(st, c.value, at);
        forall d | d in st'.jobs.jobByDelta
          ensures d in st'.deltas.deltas && !st'.deltas.deltas[d].state.DeltaPending? {
          DeltasPersist(st, c.value, at, d);
        }
      }
    }
  }

  lemma {:induction false} SameMapping(st: Stores, c: Call, now: Time)
    requires StoresValid(st) && !c.DispatchPending? && (c.Create? ==> !c.job.origin.Outbox?)
    ensures Do(st, c, now).jobs.jobByDelta == st.jobs.jobByDelta
  {
    hide D.DeltasValid; hide JobsValid; hide LeaseAll; hide D.AfterBatch; hide D.AfterEnqueue; hide Updated;
    hide Operated; hide UpdateError; hide OperatorError; hide D.Accepted; hide AfterMark; hide Normalised;
  }

  /** A routine is in flight only from its own read of the source on, and keeps its first job until then. */
  lemma {:induction false} FlightOrigin(s: System, at: Time, e: Event, r: string, customer: string)
    requires StoresValid(s.stores) && Enabled(s, at, e) && InFlight(RoutineAfter(s, at, e, r), customer)
    ensures RoutineOf(s, r).jobs != [] && RoutineAfter(s, at, e, r).jobs[0] == RoutineOf(s, r).jobs[0]
    ensures InFlight(RoutineOf(s, r), customer)
            || (e.Project? && e.routine == r
                && ForCustomer(RoutineOf(s, r).jobs[0].projectionType, RoutineOf(s, r).jobs[0].projectionKey, customer))
  {
    hide StoresValid; hide ForCustomer; hide ProjectFrom; hide Decision; hide Finalised; hide BatchOf; hide StoresAfter;
  }

  lemma {:induction false} SerialStep(s: System, at: Time, e: Event)
    requires StoresValid(s.stores) && Serial(s) && Enabled(s, at, e) && Alone(s, e)
    ensures Serial(Step(s, at, e))
  {
    hide StoresValid; hide InFlight; hide Step; hide RoutineAfter; hide Enabled; hide RoutineOf;
    var s' := Step(s, at, e);
    forall r1, r2, customer | InFlight(RoutineOf(s', r1), customer) && InFlight(RoutineOf(s', r2), customer)
      ensures r1 == r2
    {
      RoutineIsAfter(s, at, e, r1);
      RoutineIsAfter(s, at, e, r2);
      FlightOrigin(s, at, e, r1, customer);
      FlightOrigin(s, at, e, r2, customer);
    }
  }

  lemma {:induction false} FetchedForStep(s: System, at: Time, e: Event, r: string)
    requires StoresValid(s.stores) && Enabled(s, at, e) && FetchedFor(RoutineOf(s, r))
    ensures FetchedFor(RoutineAfter(s, at, e, r))
  {
    hide StoresValid; hide Decision; hide Finalised; hide BatchOf; hide StoresAfter; hide CustomerOf;
  }

  ghost predicate Writes(s: System, e: Event, customer: string) {
    e.Apply? && InFlight(RoutineOf(s, e.routine), customer)
  }

  /** Except for a change of its own document and a write by its own routine, a customer's source and
      target stay as they are. */
  lemma {:induction false} OthersLeaveAlone(s: System, at: Time, e: Event, customer: string)
    requires StoresValid(s.stores) && Enabled(s, at, e) && (forall r :: FetchedFor(RoutineOf(s, r)))
    requires !(e.ChangeSource? && e.customer == customer) && !Writes(s, e, customer)
    ensures InSync(Step(s, at, e), customer) <==> InSync(s, customer)
    ensures forall f :: Matches(Step(s, at, e).source, customer, f) <==> Matches(s.source, customer, f)
  {
    hide StoresValid; hide RoutineAfter; hide StoresAfter; hide NewFailures; hide CustomerOf; hide RoutineOf;
    if e.Apply? { assert FetchedFor(RoutineOf(s, e.routine)); }
  }

  /** Writing what matches the source brings the customer in sync. */
  lemma {:induction false} WriteSyncs(s: System, at: Time, e: Event, customer: string)
    requires StoresValid(s.stores) && Enabled(s, at, e) && Writes(s, e, customer) && (e.ok || e.effect)
    requires Matches(s.source, customer, RoutineOf(s, e.routine).phase.fetched)
    ensures InSync(Step(s, at, e), customer)
  {
    hide StoresValid; hide RoutineAfter; hide StoresAfter; hide NewFailures; hide CustomerOf;
  }

  lemma {:induction false} WriteStep(s: System, at: Time, e: Event, customer: string)
    requires Converging(s) && Enabled(s, at, e) && Writes(s, e, customer)
    ensures var s', id := Step(s, at, e), RoutineOf(s, e.routine).jobs[0].id;
      && (InSync(s', customer) || Covered(s'.stores, customer, None))
      && (e.ok ==> InSync(s', customer) || Covered(s'.stores, customer, Some(id)))
  {
    hide Converging; hide Inv; hide StoresValid; hide Open; hide Waiting; hide InSync; hide Matches; hide FetchedFor;
    hide ForCustomer;
    ConvergingFacts(s);
    ConvergingFlight(s, e.routine, customer);
    assert InSync(s, customer) || Covered(s.stores, customer, None) by { ConvergingCover(s, customer); }
    var rt, s' := RoutineOf(s, e.routine), Step(s, at, e);
    assert s'.stores == s.stores;
    if Matches(s.source, customer, rt.phase.fetched) {
      if e.ok || e.effect { WriteSyncs(s, at, e, customer); } else { NoWrite(s, at, e, customer); }
    } else {
      assert Covered(s.stores, customer, Some(rt.jobs[0].id));
    }
  }

  lemma {:induction false} NoWrite(s: System, at: Time, e: Event, customer: string)
    requires StoresValid(s.stores) && Enabled(s, at, e) && e.Apply? && !e.ok && !e.effect
    ensures InSync(Step(s, at, e), customer) <==> InSync(s, customer)
  {
  }

  /** The heart: after any event, a customer out of sync is still covered. */
  lemma {:induction false} CustomerStep(s: System, at: Time, e: Event, customer: string)
    requires Converging(s) && Enabled(s, at, e)
    ensures InSync(Step(s, at, e), customer) || Covered(StoresAfter(s, at, e), customer, None)
  {
    if e.ChangeSource? && e.customer == customer {
      ChangeCovers(s, at, e, None);
    } else if Writes(s, e, customer) {
      WriteStep(s, at, e, customer);
    } else if Syncs(s, at, e, customer) {
      SyncStep(s, at, e, customer);
    } else {
      QuietCustomer(s, at, e, customer);
    }
  }

  lemma {:induction false} QuietCustomer(s: System, at: Time, e: Event, customer: string)
    requires Converging(s) && Enabled(s, at, e)
    requires !(e.ChangeSource? && e.customer == customer) && !Writes(s, e, customer) && !Syncs(s, at, e, customer)
    ensures InSync(Step(s, at, e), customer) || Covered(StoresAfter(s, at, e), customer, None)
  {
    assert InSync(s, customer) || Covered(s.stores, customer, None);
    hide Inv; hide StoresValid; hide InSync; hide Covered; hide PendingUnmapped; hide Step; hide StoresAfter;
    OthersLeaveAlone(s, at, e, customer);
    if Covered(s.stores, customer, None) { CoverPersists(s, at, e, customer, None); }
  }

  lemma {:induction false} SyncStep(s: System, at: Time, e: Event, customer: string)
    requires Converging(s) && Enabled(s, at, e) && Syncs(s, at, e, customer)
    ensures InSync(Step(s, at, e), customer) || Covered(StoresAfter(s, at, e), customer, None)
  {
    hide Converging; hide Inv; hide StoresValid; hide InSync; hide PendingUnmapped; hide Step; hide StoresAfter;
    hide Waiting; hide Open; hide Matches; hide UpdateError; hide FetchedFor;
    ConvergingFacts(s);
    ConvergingFlight(s, e.routine, customer);
    var rt := RoutineOf(s, e.routine);
    OthersLeaveAlone(s, at, e, customer);
    if Covered(s.stores, customer, Some(rt.jobs[0].id)) { CoverPersists(s, at, e, customer, Some(rt.jobs[0].id)); }
  }

  /** While a routine's flight lasts, no other routine writes or syncs that customer. */
  lemma {:induction false} WaitsForOthers(s: System, at: Time, e: Event, r: string, customer: string)
    requires Converging(s) && Enabled(s, at, e) && InFlight(RoutineOf(s, r), customer)
    requires !Acts(e, r) || e.Heartbeat?
    ensures !Writes(s, e, customer) && !Syncs(s, at, e, customer)
  {
    hide Inv; hide StoresValid; hide InSync; hide Covered; hide FlightInv; hide PendingUnmapped; hide FetchedFor;
    hide InFlight; hide RoutineOf;
  }

  /** A routine in flight that does not act: its promise survives, because nobody else is on its customer. */
  lemma {:induction false} WaitingFlightStep(s: System, at: Time, e: Event, r: string, customer: string)
    requires Converging(s) && Enabled(s, at, e) && InFlight(RoutineOf(s, r), customer)
    requires !Acts(e, r) || e.Heartbeat?
    ensures FlightInv(Step(s, at, e), RoutineOf(s, r), customer)
  {
    hide Converging; hide Inv; hide StoresValid; hide InSync; hide PendingUnmapped; hide StoresAfter; hide Covered;
    hide Matches; hide RoutineAfter; hide NewFailures; hide FetchedFor; hide Syncs; hide Writes; hide RoutineOf;
    ConvergingFacts(s);
    ConvergingFlight(s, r, customer);
    WaitsForOthers(s, at, e, r, customer);
    var rt := RoutineOf(s, r);
    var id := rt.jobs[0].id;
    if e.ChangeSource? && e.customer == customer {
      ChangeCovers(s, at, e, Some(id));
    } else {
      OthersLeaveAlone(s, at, e, customer);
      if Covered(s.stores, customer, Some(id)) { CoverPersists(s, at, e, customer, Some(id)); }
    }
  }

  /** A routine's own read, write and decision establish the promise of its next phase. */
  lemma {:induction false} OwnFlightStep(s: System, at: Time, e: Event, r: string, customer: string)
    requires Converging(s) && Enabled(s, at, e) && Acts(e, r) && !e.Heartbeat?
    requires InFlight(RoutineAfter(s, at, e, r), customer)
    ensures FlightInv(Step(s, at, e), RoutineAfter(s, at, e, r), customer)
  {
    hide Converging; hide Inv; hide StoresValid; hide InSync; hide Covered; hide FetchedFor; hide WorkerBackoff;
    ConvergingFacts(s);
    FlightOrigin(s, at, e, r, customer);
    if e.Project? {
      assert Step(s, at, e).source == s.source;
    } else if e.Apply? {
      WriteStep(s, at, e, customer);
    } else {
      ConvergingFlight(s, r, customer);
      NothingMoves(s, at, e, customer);
    }
  }

  lemma {:induction false} NothingMoves(s: System, at: Time, e: Event, customer: string)
    requires StoresValid(s.stores) && Enabled(s, at, e) && e.Decide?
    ensures Step(s, at, e).stores == s.stores
    ensures InSync(Step(s, at, e), customer) <==> InSync(s, customer)
  {
  }

  // ----- The invariant over whole runs -----

  lemma {:induction false} ConvergingStep(s: System, at: Time, e: Event)
    requires Converging(s) && Enabled(s, at, e) && Alone(s, e)
    ensures Converging(Step(s, at, e))
  {
    var s' := Step(s, at, e);
    assert s'.stores == StoresAfter(s, at, e);
    StepInv(s, at, e);
    UnmappedStep(s, at, e);
    SerialStep(s, at, e);
    hide Inv; hide StoresValid; hide StoresAfter; hide InSync; hide Covered; hide PendingUnmapped; hide Serial;
    hide FlightInv; hide InFlight; hide FetchedFor; hide Enabled; hide Alone; hide NewFailures;
    forall r ensures FetchedFor(RoutineOf(s', r)) {
      RoutineIsAfter(s, at, e, r);
      FetchedForStep(s, at, e, r);
    }
    forall customer ensures InSync(s', customer) || Covered(s'.stores, customer, None) {
      CustomerStep(s, at, e, customer);
    }
    forall r, customer | InFlight(RoutineOf(s', r), customer) ensures FlightInv(s', RoutineOf(s', r), customer) {
      RoutineIsAfter(s, at, e, r);
      FlightStep(s, at, e, r, customer);
    }
  }

  lemma {:induction false} FlightStep(s: System, at: Time, e: Event, r: string, customer: string)
    requires Converging(s) && Enabled(s, at, e) && InFlight(RoutineAfter(s, at, e, r), customer)
    ensures FlightInv(Step(s, at, e), RoutineAfter(s, at, e, r), customer)
  {
    RoutineIsAfter(s, at, e, r);
    if !Acts(e, r) || e.Heartbeat? {
      WaitingFlightStep(s, at, e, r, customer);
    } else {
      OwnFlightStep(s, at, e, r, customer);
    }
  }

  /** Every read of the source along the run is made by a routine alone on its customer. */
  ghost predicate Serialised(s: System, run: seq<Tick>)
    requires StoresValid(s.stores) && Legal(s, run)
    decreases |run|
  {
    run == [] || (Alone(s, run[0].event) && Serialised(Step(s, run[0].at, run[0].event), run[1..]))
  }

  lemma {:induction false} RunConverging(s: System, run: seq<Tick>)
    requires Converging(s) && Legal(s, run) && Serialised(s, run)
    ensures Converging(Run(s, run))
    decreases |run|
  {
    assert StoresValid(s.stores);
    if run != [] {
      hide Converging; hide Enabled; hide Step; hide Alone; hide StoresValid;
      ConvergingStep(s, run[0].at, run[0].event);
      RunConverging(Step(s, run[0].at, run[0].event), run[1..]);
    }
  }

  lemma InitialConverging(s: System)
    requires Initial(s) && s.target == s.source
    ensures Converging(s)
  {
    InitialInv(s);
  }

  /** In every reachable state, a customer on which target and source differ has a pending delta, a live
      job or a dead job. */
  lemma {:induction false} DifferencesAreCovered(s: System, run: seq<Tick>, customer: string)
    requires Initial(s) && s.target == s.source && StoresValid(s.stores) && Legal(s, run) && Serialised(s, run)
    ensures InSync(Run(s, run), customer) || Covered(Run(s, run).stores, customer, None)
  {
    InitialConverging(s);
    RunConverging(s, run);
  }

  /** No customer's job has died. A job of another projection type, or without a customer, finds nothing to project,
      so it dies in the end; it stands for no customer. */
  ghost predicate NoneDied(st: Stores) {
    forall id, customer | id in st.jobs.jobs && st.jobs.jobs[id].state.Dead? ::
      !ForCustomer(st.jobs.jobs[id].projectionType, st.jobs.jobs[id].projectionKey, customer)
  }

  lemma {:induction false} NothingCoversWhenDrained(s: System, customer: string)
    requires Inv(s) && Measure(s.stores) == 0 && NoneDied(s.stores)
    ensures !Covered(s.stores, customer, None)
  {
    DrainedIsQuiet(s);
    hide Inv; hide Measure; hide ForCustomer;
  }

  lemma {:induction false} AllInSync(s: System)
    requires forall customer :: InSync(s, customer)
    ensures s.target == s.source
  {
    assert forall customer :: InSync(s, customer) ==> (customer in s.target <==> customer in s.source);
  }

  /** A converging state whose backlog is used up, without a customer's job having died, has the target equal to the
      source. */
  lemma {:induction false} DrainedTargetIsSource(s: System)
    requires Converging(s) && Measure(s.stores) == 0 && NoneDied(s.stores)
    ensures s.target == s.source
  {
    hide Converging; hide Inv; hide Measure; hide NoneDied; hide InSync; hide Covered;
    assert Inv(s) by { ConvergingFacts(s); }
    forall customer ensures InSync(s, customer) {
      ConvergingCover(s, customer);
      NothingCoversWhenDrained(s, customer);
    }
    AllInSync(s);
  }

  /** Latest-state delivery: when the backlog is used up and no customer's job died, the target is the source, with
      every ghost deleted. */
  lemma {:induction false} QuiescentTargetIsSource(s: System, run: seq<Tick>, s': System)
    requires Initial(s) && s.target == s.source && StoresValid(s.stores) && Legal(s, run) && Serialised(s, run)
    requires s' == Run(s, run) && Measure(s'.stores) == 0 && NoneDied(s'.stores)
    ensures s'.target == s'.source
  {
    hide Converging; hide Legal; hide Run; hide Serialised; hide Measure; hide NoneDied;
    InitialConverging(s);
    RunConverging(s, run);
    DrainedTargetIsSource(s');
  }
}
