/** Why convergence needs its condition: two routines that are in flight on one customer can leave an old
    document in the target with nothing left to correct it. */
module Overlap {
  import opened Types
  import opened Ranks
  import opened Names
  import opened Jobs
  import opened Dispatch
  import opened Runs
  import opened Protocol
  import opened Convergence
  import opened WorkerRuns
  import C = Claims
  import D = Deltas

  /** A routine writes what it has read, finds its heartbeat well and reports the job as synced. */
  function Deliver(r: string, at: Time): seq<Tick> {
    [Tick(at, Apply(r, true, true)), Tick(at, Decide(r, false, "")), Tick(at, Finalise(r, false, "", at))]
  }

  ghost predicate CanDeliver(s: System, r: string, at: Time, customer: string, doc: Document) {
    var rt := RoutineOf(s, r);
    && StoresValid(s.stores) && at >= s.now
    && rt.jobs != [] && rt.phase == Projected(Found(doc)) && CustomerOf(rt.jobs[0].projectionKey) == Some(customer)
    && rt.jobs[0].id in s.stores.jobs.jobs && LeaseOwned(s.stores.jobs.jobs[rt.jobs[0].id], at, r)
  }

  ghost predicate Delivered(s: System, s': System, r: string, at: Time, customer: string, doc: Document)
    requires CanDeliver(s, r, at, customer, doc)
  {
    var id := RoutineOf(s, r).jobs[0].id;
    && s'.now == at && s'.source == s.source && s'.target == s.target[customer := doc]
    && s'.stores.deltas == s.stores.deltas
    && s'.stores.jobs.jobs == s.stores.jobs.jobs[id := Updated(s.stores.jobs.jobs[id], MarkSynced(false), at)]
    && (forall other | other != r :: RoutineOf(s', other) == RoutineOf(s, other))
  }

  lemma KeyedStores(st: Stores, id: string)
    requires StoresValid(st) && id in st.jobs.jobs
    ensures st.jobs.jobs[id].id == id
  {
  }

  lemma {:induction false} DeliverRuns(s: System, r: string, at: Time, customer: string, doc: Document)
    requires CanDeliver(s, r, at, customer, doc)
    ensures Legal(s, Deliver(r, at))
    ensures StoresValid(Run(s, Deliver(r, at)).stores) && Delivered(s, Run(s, Deliver(r, at)), r, at, customer, doc)
  {
    hide StoresValid; hide Updated; hide LeaseOwned; hide Step; hide Enabled; hide RoutineOf; hide FailOrRetry;
    var run, batch := Deliver(r, at), RoutineOf(s, r).jobs;
    assert s.stores.jobs.jobs[batch[0].id].id == batch[0].id by { KeyedStores(s.stores, batch[0].id); }
    ApplyMoves(s, at, r, batch, Found(doc), true, true);
    var s1 := Step(s, at, run[0].event);
    DecideMoves(s1, at, r, batch, Applied(true, false), false, "");
    var s2 := Step(s1, at, run[1].event);
    FinaliseMoves(s2, at, r, batch, MarkSynced(false), at, false, "", at);
    var s3 := Step(s2, at, run[2].event);
    assert run[1..][1..] == run[2..] && run[2..][1..] == [];
    assert Legal(s3, []) && Legal(s2, run[2..]) && Legal(s1, run[1..]);
    assert Run(s2, run[2..]) == s3 && Run(s1, run[1..]) == s3;
  }

  lemma {:induction false} OtherCanStillDeliver(s: System, s1: System, a: string, b: string, at: Time, customer: string,
                                                older: Document, latest: Document)
    requires a != b && CanDeliver(s, a, at, customer, older) && CanDeliver(s, b, at, customer, latest)
    requires StoresValid(s1.stores) && Delivered(s, s1, b, at, customer, latest)
    ensures RoutineOf(s, a).jobs[0].id != RoutineOf(s, b).jobs[0].id
    ensures CanDeliver(s1, a, at, customer, older)
  {
    hide StoresValid; hide Updated; hide CustomerOf;
  }

  /** Only jobs `a` and `b` stood for the customer, and both are synced now. */
  lemma {:induction false} NothingLeft(s: System, s1: System, s2: System, a: string, b: string, at: Time,
                                       customer: string, older: Document, latest: Document)
    requires a != b && CanDeliver(s, b, at, customer, latest) && Delivered(s, s1, b, at, customer, latest)
    requires CanDeliver(s1, a, at, customer, older) && Delivered(s1, s2, a, at, customer, older)
    requires RoutineOf(s, a).jobs == RoutineOf(s1, a).jobs
    requires OnlyTheirs(s, a, b, customer)
    ensures !Covered(s2.stores, customer, None)
  {
    hide StoresValid; hide CustomerOf; hide ForCustomer; hide LeaseOwned;
    var ja, jb := RoutineOf(s, a).jobs[0].id, RoutineOf(s, b).jobs[0].id;
    forall id | id in s2.stores.jobs.jobs ensures !Open(s2.stores.jobs.jobs[id], customer) {
      if id != ja && id != jb {
        assert s2.stores.jobs.jobs[id] == s.stores.jobs.jobs[id];
      }
    }
  }

  ghost predicate OnlyTheirs(s: System, a: string, b: string, customer: string)
    requires RoutineOf(s, a).jobs != [] && RoutineOf(s, b).jobs != []
  {
    && (forall id | id in s.stores.deltas.deltas :: !Waiting(s.stores.deltas.deltas[id], customer))
    && (forall id | id in s.stores.jobs.jobs && Open(s.stores.jobs.jobs[id], customer) ::
          id == RoutineOf(s, a).jobs[0].id || id == RoutineOf(s, b).jobs[0].id)
  }

  /** From every state in which two routines are in flight on one customer with different documents, own
      their jobs, and nothing else stands for the customer: there is a continuation in which both report
      success and the target keeps the older document, uncovered. */
  lemma {:induction false} OverlapLosesUpdate(s: System, a: string, b: string, at: Time, customer: string,
                                              older: Document, latest: Document)
    requires a != b && older != latest && customer in s.source && s.source[customer] == latest
    requires CanDeliver(s, a, at, customer, older) && CanDeliver(s, b, at, customer, latest)
    requires OnlyTheirs(s, a, b, customer)
    ensures Legal(s, Deliver(b, at) + Deliver(a, at))
    ensures var s' := Run(s, Deliver(b, at) + Deliver(a, at));
      !InSync(s', customer) && !Covered(s'.stores, customer, None)
  {
    DeliverRuns(s, b, at, customer, latest);
    var s1 := Run(s, Deliver(b, at));
    hide Legal; hide Run; hide StoresValid; hide Covered; hide OnlyTheirs; hide LeaseOwned; hide Updated;
    hide CustomerOf;
    OtherCanStillDeliver(s, s1, a, b, at, customer, older, latest);
    DeliverRuns(s1, a, at, customer, older);
    var s2 := Run(s1, Deliver(a, at));
    hide Deliver;
    RunThen(s, Deliver(b, at), Deliver(a, at));
    NothingLeft(s, s1, s2, a, b, at, customer, older, latest);
    assert s2.target[customer] == older && s2.source[customer] == latest;
  }

  // ----- Such states are reachable -----

  const SYNC: string := "customers"

  /** The delta a producer enqueues for a customer. */
  function Signal(customer: string): Delta {
    Delta("", SYNC, "", CUSTOMER, map["customer_id" := JsonString(customer)], "", "", NoKey, DeltaUnset, ZERO_TIME,
          ZERO_TIME, None, "")
  }

  /** Nothing is pending, and nothing can be claimed. */
  ghost predicate Calm(st: Stores, at: Time) {
    && StoresValid(st) && PendingUnmapped(st)
    && (forall id | id in st.deltas.deltas :: !st.deltas.deltas[id].state.DeltaPending?)
    && (forall id | id in st.jobs.jobs :: !Claimable(st.jobs.jobs[id], at, SYNC))
  }

  function NewDelta(st: Stores, customer: string, hash: string, at: Time): Delta {
    D.Stamped(Signal(customer), Name(D.DELTA, st.deltas.nextID + 1), hash, NoKey, at)
  }

  lemma SignalIsEnqueued(st: Stores, customer: string, hash: string, at: Time)
    requires Calm(st, at) && st.deltas.config.keyHash(Signal(customer).projectionKey) == Some(hash)
    ensures var d, st1 := NewDelta(st, customer, hash, at), Do(st, Enqueue(Signal(customer)), at);
      && StoresValid(st1) && st1.jobs == st.jobs && st1.deltas.config == st.deltas.config
      && d.id !in st.deltas.deltas && st1.deltas.deltas == st.deltas.deltas[d.id := d]
  {
    hide JobsValid;
    D.NextIsFresh(st.deltas);
    DoKeeps(st, Enqueue(Signal(customer)), at);
  }

  /** A dispatch of one delta takes the one that is pending. */
  lemma SignalIsSelected(st: Stores, st1: Stores, d: Delta, at: Time)
    requires Calm(st, at) && StoresValid(st1) && st1.deltas.deltas == st.deltas.deltas[d.id := d]
    requires d.state.DeltaPending? && d.syncID == SYNC
    ensures Selection(st1, SYNC, 1) == [D.PendingRank(d)]
  {
    hide JobsValid; hide D.Indexed; hide Sorted; hide D.PendingRank; hide Claimable;
    var deltas := st1.deltas.deltas;
    assert deltas[d.id] == d && D.PendingRank(deltas[d.id]) in D.PendingRanks(deltas, SYNC);
    forall id | id in deltas && id != d.id ensures !deltas[id].state.DeltaPending? {
      assert deltas[id] == st.deltas.deltas[id];
    }
    assert D.PendingRanks(deltas, SYNC) == {D.PendingRank(d)};
    SortedSingleton(D.PendingRank(d));
  }

  function FirstJob(st: Stores, d: Delta, at: Time): SyncJob {
    NewJob(d, Name(JOB, st.jobs.nextID + 1), at)
  }

  lemma SignalIsDispatched(st: Stores, st1: Stores, d: Delta, at: Time)
    requires Calm(st, at) && StoresValid(st1) && st1.deltas.deltas == st.deltas.deltas[d.id := d] && st1.jobs == st.jobs
    requires d.state.DeltaPending? && d.syncID == SYNC && d.id !in st.deltas.deltas
    ensures var st2, j := Do(st1, DispatchPending(SYNC, 1), at), FirstJob(st, d, at);
      && StoresValid(st2) && j.id !in st.jobs.jobs && st2.jobs.jobs == st.jobs.jobs[j.id := j] && PendingUnmapped(st2)
      && st2.deltas.config == st1.deltas.config
      && (forall id | id in st2.deltas.deltas :: !st2.deltas.deltas[id].state.DeltaPending?)
  {
    hide Claimable; hide Keyed; hide Mapped; hide D.DeltasValid; hide NewJob; hide Selection; hide FreshAbove;
    SignalIsSelected(st, st1, d, at);
    var q := [D.PendingRank(d)];
    DoKeeps(st1, DispatchPending(SYNC, 1), at);
    assert q[1..] == [] && d.id !in st.jobs.jobByDelta;
    var st2 := DispatchOne(st1, d.id, at);
    assert DispatchAll(st2, q[1..], at) == st2;
    NextIsFree(JOB, st.jobs.nextID, st.jobs.jobs.Keys);
  }

  /** A claim by an idle routine takes the one job that is due. */
  lemma JobIsClaimed(st: Stores, st2: Stores, j: SyncJob, at: Time, r: string)
    requires Calm(st, at) && StoresValid(st2) && st2.jobs.jobs == st.jobs.jobs[j.id := j] && j.id !in st.jobs.jobs
    requires Claimable(j, at, SYNC)
    ensures var taken := Claimed(j, r, at, at + SECOND);
      && BatchOf(st2.jobs, SYNC, r, 1, at, at + SECOND) == [taken]
      && AfterBatch(st2.jobs, SYNC, r, 1, at, at + SECOND).jobs == st.jobs.jobs[j.id := taken]
  {
    hide D.DeltasValid; hide Mapped; hide FreshAbove; hide Claimable; hide Claimed; hide BatchOf; hide AfterBatch;
    var jobs := st2.jobs.jobs;
    forall id | id in jobs && id != j.id ensures !Claimable(jobs[id], at, SYNC) {
      assert jobs[id] == st.jobs.jobs[id];
    }
    C.OnlyJobIsClaimed(st2.jobs, SYNC, r, at, at + SECOND, j.id);
    assert jobs[j.id := Claimed(j, r, at, at + SECOND)] == st.jobs.jobs[j.id := Claimed(j, r, at, at + SECOND)];
  }

  /** A source change, its dispatch, the claim of its job and the read of the source, all at one instant. */
  function TakeUp(at: Time, r: string, customer: string, doc: Document): seq<Tick> {
    [Tick(at, ChangeSource(customer, Some(doc), Signal(customer))), Tick(at, Env(DispatchPending(SYNC, 1))),
     Tick(at, ClaimJobs(r, SYNC, 1, SECOND)), Tick(at, Project(r, false))]
  }

  ghost predicate CanTakeUp(s: System, at: Time, r: string, customer: string, hash: string) {
    && Calm(s.stores, at) && at >= s.now && RoutineOf(s, r) == IDLE && customer != ""
    && s.stores.deltas.config.keyHash(Signal(customer).projectionKey) == Some(hash)
  }

  /** After it the routine is in flight with the document, on a job of its own. */
  ghost predicate TakenUp(s: System, s': System, at: Time, r: string, customer: string, doc: Document) {
    && Calm(s'.stores, at) && s'.now == at && s'.source == s.source[customer := doc] && s'.target == s.target
    && s'.stores.deltas.config == s.stores.deltas.config
    && (forall other | other != r :: RoutineOf(s', other) == RoutineOf(s, other))
    && CanDeliver(s', r, at, customer, doc)
    && var id := RoutineOf(s', r).jobs[0].id;
       id !in s.stores.jobs.jobs && s'.stores.jobs.jobs == s.stores.jobs.jobs[id := s'.stores.jobs.jobs[id]]
  }

  /** The stores after the change, the dispatch and the claim. */
  lemma {:induction false} WorkArrives(st: Stores, at: Time, r: string, customer: string, hash: string, st1: Stores,
                                       st2: Stores, st3: Stores, taken: SyncJob)
    requires Calm(st, at) && st.deltas.config.keyHash(Signal(customer).projectionKey) == Some(hash) && customer != ""
    requires st1 == Do(st, Enqueue(Signal(customer)), at) && StoresValid(st1)
    requires st2 == Do(st1, DispatchPending(SYNC, 1), at) && StoresValid(st2)
    requires st3 == Do(st2, Claim(r, SYNC, 1, SECOND), at)
    requires taken == Claimed(FirstJob(st, NewDelta(st, customer, hash, at), at), r, at, at + SECOND)
    ensures BatchOf(st2.jobs, SYNC, r, 1, at, at + SECOND) == [taken]
    ensures taken.id !in st.jobs.jobs && st3.jobs.jobs == st.jobs.jobs[taken.id := taken]
    ensures Calm(st3, at) && st3.deltas.config == st.deltas.config
    ensures taken.projectionType == CUSTOMER && CustomerOf(taken.projectionKey) == Some(customer)
    ensures LeaseOwned(taken, at, r)
  {
    hide BatchOf; hide AfterBatch; hide StoresValid; hide PendingUnmapped; hide Selection; hide DispatchAll; hide Do;
    var d := NewDelta(st, customer, hash, at);
    SignalIsEnqueued(st, customer, hash, at);
    SignalIsDispatched(st, st1, d, at);
    JobIsClaimed(st, st2, FirstJob(st, d, at), at, r);
    ClaimLeavesRest(st2, r, at, st3);
  }

  lemma ClaimLeavesRest(st: Stores, r: string, at: Time, st': Stores)
    requires StoresValid(st) && PendingUnmapped(st) && st' == Do(st, Claim(r, SYNC, 1, SECOND), at)
    ensures StoresValid(st') && PendingUnmapped(st') && st'.deltas == st.deltas
    ensures st'.jobs == AfterBatch(st.jobs, SYNC, r, 1, at, at + SECOND)
  {
    hide StoresValid; hide LeaseAll; hide ClaimQueue;
    DoKeeps(st, Claim(r, SYNC, 1, SECOND), at);
  }

  lemma {:induction false} ChangeStep(s: System, at: Time, r: string, customer: string, doc: Document, hash: string)
    requires CanTakeUp(s, at, r, customer, hash)
    ensures var e := ChangeSource(customer, Some(doc), Signal(customer));
      && Enabled(s, at, e)
      && var s' := Step(s, at, e);
         && s'.stores == Do(s.stores, Enqueue(Signal(customer)), at) && s'.now == at && s'.routines == s.routines
         && s'.source == s.source[customer := doc] && s'.target == s.target
  {
    hide StoresValid; hide PendingUnmapped; hide Do; hide Claimable;
  }

  lemma {:induction false} DispatchStep(s: System, at: Time)
    requires StoresValid(s.stores) && at >= s.now
    ensures var e := Env(DispatchPending(SYNC, 1));
      && Enabled(s, at, e)
      && var s' := Step(s, at, e);
         && s'.stores == Do(s.stores, DispatchPending(SYNC, 1), at) && s'.now == at && s'.routines == s.routines
         && s'.source == s.source && s'.target == s.target
  {
    hide StoresValid; hide Do;
  }

  lemma {:induction false} ClaimStep(s: System, at: Time, r: string)
    requires StoresValid(s.stores) && at >= s.now && RoutineOf(s, r) == IDLE
    ensures var e := ClaimJobs(r, SYNC, 1, SECOND);
      && Enabled(s, at, e)
      && var s' := Step(s, at, e);
         && s'.stores == Do(s.stores, Claim(r, SYNC, 1, SECOND), at) && s'.now == at
         && s'.source == s.source && s'.target == s.target
         && RoutineOf(s', r) == Continue(BatchOf(s.stores.jobs, SYNC, r, 1, at, at + SECOND), Collecting)
         && (forall other | other != r :: RoutineOf(s', other) == RoutineOf(s, other))
  {
    hide D.DeltasValid; hide Mapped; hide Do; hide BatchOf;
    var claimed := BatchOf(s.stores.jobs, SYNC, r, 1, at, at + SECOND);
    assert [] + claimed == claimed;
  }

  lemma {:induction false} ProjectStep(s: System, at: Time, r: string, j: SyncJob)
    requires StoresValid(s.stores) && at >= s.now && RoutineOf(s, r) == Routine([j], Collecting)
    ensures var e := Project(r, false);
      && Enabled(s, at, e)
      && var s' := Step(s, at, e);
         && s'.stores == s.stores && s'.now == at && s'.source == s.source && s'.target == s.target
         && RoutineOf(s', r) == Routine([j], Projected(ProjectFrom(s.source, j.projectionType, j.projectionKey)))
         && (forall other | other != r :: RoutineOf(s', other) == RoutineOf(s, other))
  {
    hide StoresValid; hide ProjectFrom;
  }

  lemma {:induction false} TakeUpRuns(s: System, at: Time, r: string, customer: string, doc: Document, hash: string)
    requires CanTakeUp(s, at, r, customer, hash)
    ensures Legal(s, TakeUp(at, r, customer, doc))
    ensures TakenUp(s, Run(s, TakeUp(at, r, customer, doc)), at, r, customer, doc)
  {
    hide StoresValid; hide PendingUnmapped; hide Do; hide Claimable; hide Step; hide Enabled; hide BatchOf;
    hide LeaseOwned; hide CustomerOf;
    var run := TakeUp(at, r, customer, doc);
    ChangeStep(s, at, r, customer, doc, hash);
    var s1 := Step(s, at, run[0].event);
    DispatchStep(s1, at);
    var s2 := Step(s1, at, run[1].event);
    ClaimStep(s2, at, r);
    var s3 := Step(s2, at, run[2].event);
    var taken := Claimed(FirstJob(s.stores, NewDelta(s.stores, customer, hash, at), at), r, at, at + SECOND);
    WorkArrives(s.stores, at, r, customer, hash, s1.stores, s2.stores, s3.stores, taken);
    ProjectStep(s3, at, r, taken);
    var s4 := Step(s3, at, run[3].event);
    FourSteps(s, run, s1, s2, s3, s4);
  }

  lemma {:induction false} FourSteps(s: System, run: seq<Tick>, s1: System, s2: System, s3: System, s4: System)
    requires |run| == 4 && StoresValid(s.stores) && Enabled(s, run[0].at, run[0].event)
    requires s1 == Step(s, run[0].at, run[0].event)
    requires Enabled(s1, run[1].at, run[1].event) && s2 == Step(s1, run[1].at, run[1].event)
    requires Enabled(s2, run[2].at, run[2].event) && s3 == Step(s2, run[2].at, run[2].event)
    requires Enabled(s3, run[3].at, run[3].event) && s4 == Step(s3, run[3].at, run[3].event)
    ensures Legal(s, run) && Run(s, run) == s4
  {
    hide Step; hide Enabled; hide StoresValid;
    assert run[1..][1..] == run[2..] && run[2..][1..] == run[3..] && run[3..][1..] == [];
    assert Legal(s4, []) && Legal(s3, run[3..]) && Legal(s2, run[2..]) && Legal(s1, run[1..]);
    assert Run(s4, []) == s4;
    assert Run(s3, run[3..]) == Run(s4, []) && Run(s2, run[2..]) == Run(s3, run[3..]);
    assert Run(s1, run[1..]) == Run(s2, run[2..]);
  }

  /** The second routine's arrival leaves the first one as it was. */
  lemma {:induction false} FirstStillThere(s: System, s': System, at: Time, a: string, b: string, customer: string,
                                           older: Document, latest: Document)
    requires a != b && CanDeliver(s, a, at, customer, older) && TakenUp(s, s', at, b, customer, latest)
    ensures CanDeliver(s', a, at, customer, older) && RoutineOf(s', a) == RoutineOf(s, a)
  {
    hide StoresValid; hide PendingUnmapped; hide Claimable; hide LeaseOwned; hide CustomerOf;
  }

  function Empty(hash: string): System {
    var config := D.DeltaConfig(D.DEFAULT_MAX_ENQUEUE_BATCH_SIZE, (key: ProjectionKey) => Some(hash));
    System(0, Stores(D.DeltaTable(config, 0, map[], map[]), JobTable(0, map[], map[])), map[], map[], map[], map[])
  }

  /** Routine "a" reads the old document, routine "b" the new one; then "b" writes, and then "a" does. */
  function Overlapping(): seq<Tick> {
    TakeUp(1, "a", "c", "old") + TakeUp(1, "b", "c", "new") + (Deliver("b", 1) + Deliver("a", 1))
  }

  /** A concrete run from empty stores, with an empty source and target, in which every call succeeds: it
      ends with nothing pending, no job live or dead, and the old document in the target. */
  lemma {:induction false} OverlapIsReachable()
    ensures var s := Empty("h");
      && Initial(s) && s.target == s.source && StoresValid(s.stores) && Legal(s, Overlapping())
      && var s' := Run(s, Overlapping());
         !InSync(s', "c") && !Covered(s'.stores, "c", None)
  {
    hide Step; hide Enabled; hide StoresValid; hide Covered; hide InSync; hide PendingUnmapped; hide Claimable;
    hide LeaseOwned;
    var s := Empty("h");
    EmptyIsCalm();
    var first, second, rest := TakeUp(1, "a", "c", "old"), TakeUp(1, "b", "c", "new"),
                              Deliver("b", 1) + Deliver("a", 1);
    TakeUpRuns(s, 1, "a", "c", "old", "h");
    var s1 := Run(s, first);
    TakeUpRuns(s1, 1, "b", "c", "new", "h");
    var s2 := Run(s1, second);
    FirstStillThere(s1, s2, 1, "a", "b", "c", "old", "new");
    TheirsOnly(s, s1, s2);
    OverlapLosesUpdate(s2, "a", "b", 1, "c", "old", "new");
    RunThen(s, first, second);
    RunThen(s, first + second, rest);
  }

  lemma EmptyIsCalm()
    ensures Initial(Empty("h")) && CanTakeUp(Empty("h"), 1, "a", "c", "h")
  {
  }

  lemma {:induction false} TheirsOnly(s: System, s1: System, s2: System)
    requires s.stores.jobs.jobs == map[]
    requires TakenUp(s, s1, 1, "a", "c", "old") && TakenUp(s1, s2, 1, "b", "c", "new")
    ensures OnlyTheirs(s2, "a", "b", "c")
  {
    hide StoresValid; hide PendingUnmapped; hide Claimable; hide LeaseOwned; hide CustomerOf; hide ForCustomer;
  }
}
