/** The in-memory dispatch store. It stages every job first and commits afterwards, under both locks;
    that is proved to be the same as dispatching the deltas one after the other. */
module DispatchStore {
  import opened Types
  import opened Ranks
  import opened Names
  import opened Jobs
  import opened Dispatch
  import opened DeltaStore
  import opened JobStore
  import D = Deltas
  import F = DispatchFields

  /** The jobs staged for a queue, numbered from n on, against the tables as they were on entry. */
  ghost function Staged(s: Stores, q: seq<Rank>, n: nat, now: Time): seq<SyncJob>
    requires Known(s, q)
    decreases |q|
  {
    if q == [] then []
    else if q[0].id in s.jobs.jobByDelta then Staged(s, q[1..], n, now)
    else
      var m := FirstFree(JOB, n, s.jobs.jobs.Keys);
      [NewJob(s.deltas.deltas[q[0].id], Name(JOB, m), now)] + Staged(s, q[1..], m, now)
  }

  ghost function NumberAfter(s: Stores, q: seq<Rank>, n: nat): nat
    decreases |q|
  {
    if q == [] then n
    else if q[0].id in s.jobs.jobByDelta then NumberAfter(s, q[1..], n)
    else NumberAfter(s, q[1..], FirstFree(JOB, n, s.jobs.jobs.Keys))
  }

  function CommitJobs(jobs: map<string, SyncJob>, staged: seq<SyncJob>): map<string, SyncJob>
    decreases |staged|
  {
    if staged == [] then jobs else CommitJobs(jobs[staged[0].id := staged[0]], staged[1..])
  }

  function CommitMapping(mapping: map<string, string>, staged: seq<SyncJob>): map<string, string>
    requires forall i | 0 <= i < |staged| :: staged[i].deltaID.Some?
    decreases |staged|
  {
    if staged == [] then mapping
    else CommitMapping(mapping[staged[0].deltaID.value := staged[0].id], staged[1..])
  }

  function Texts(ids: seq<string>): set<string> {
    set i | 0 <= i < |ids| :: ids[i]
  }

  function DeltaIDs(staged: seq<SyncJob>): set<string> {
    set i | 0 <= i < |staged| && staged[i].deltaID.Some? :: staged[i].deltaID.value
  }

  lemma TextsAppend(ids: seq<string>, id: string)
    ensures Texts(ids + [id]) == Texts(ids) + {id}
  {
    assert (ids + [id])[|ids|] == id && forall i | 0 <= i < |ids| :: (ids + [id])[i] == ids[i];
  }

  lemma NothingStaged()
    ensures DeltaIDs([]) == {} == Ids([]) && Texts([]) == {}
  {
  }

  lemma DeltasAreKeyed(s: Stores)
    requires StoresValid(s)
    ensures D.DeltasKeyed(s.deltas.deltas)
  {
  }

  lemma DeltaIDsAppend(staged: seq<SyncJob>, job: SyncJob)
    requires job.deltaID.Some?
    ensures DeltaIDs(staged + [job]) == DeltaIDs(staged) + {job.deltaID.value}
  {
    assert (staged + [job])[|staged|] == job && forall i | 0 <= i < |staged| :: (staged + [job])[i] == staged[i];
  }

  lemma IdsAppend(ids: seq<Rank>, k: nat)
    requires k < |ids|
    ensures Ids(ids[..k + 1]) == Ids(ids[..k]) + {ids[k].id}
  {
    assert forall i | 0 <= i < k :: ids[..k + 1][i] == ids[..k][i];
    assert ids[..k + 1][k] == ids[k];
  }

  /** Staging looks only at the selected deltas, their mappings and the job ids still ahead. */
  lemma {:induction false} StagedIsStable(s: Stores, s1: Stores, q: seq<Rank>, n: nat, now: Time)
    requires Known(s, q) && Known(s1, q)
    requires forall i | 0 <= i < |q| ::
               && s1.deltas.deltas[q[i].id] == s.deltas.deltas[q[i].id]
               && (q[i].id in s1.jobs.jobByDelta <==> q[i].id in s.jobs.jobByDelta)
    requires s.jobs.jobs.Keys <= s1.jobs.jobs.Keys
    requires forall i: nat | i > n :: Name(JOB, i) in s1.jobs.jobs.Keys ==> Name(JOB, i) in s.jobs.jobs.Keys
    ensures Staged(s1, q, n, now) == Staged(s, q, n, now)
    ensures NumberAfter(s1, q, n) == NumberAfter(s, q, n)
    decreases |q|
  {
    hide NewJob;
    if q != [] {
      FirstFreeDependsAbove(JOB, n, s.jobs.jobs.Keys, s1.jobs.jobs.Keys);
      assert forall i | 0 <= i < |q[1..]| :: q[1..][i] == q[i + 1];
      StagedIsStable(s, s1, q[1..],
        if q[0].id in s.jobs.jobByDelta then n else FirstFree(JOB, n, s.jobs.jobs.Keys), now);
    }
  }

  lemma {:induction false} StagedHaveDeltas(s: Stores, q: seq<Rank>, n: nat, now: Time)
    requires Known(s, q) && (forall id | id in s.deltas.deltas :: s.deltas.deltas[id].id == id)
    ensures var staged := Staged(s, q, n, now);
      forall i | 0 <= i < |staged| :: staged[i].deltaID.Some? && staged[i].deltaID.value in s.deltas.deltas
    decreases |q|
  {
    if q != [] {
      var m := if q[0].id in s.jobs.jobByDelta then n else FirstFree(JOB, n, s.jobs.jobs.Keys);
      var first := NewJob(s.deltas.deltas[q[0].id], Name(JOB, m), now);
      assert first.deltaID == Some(q[0].id);
      StagedHaveDeltas(s, q[1..], m, now);
      assert Staged(s, q, n, now) == (if q[0].id in s.jobs.jobByDelta then [] else [first]) + Staged(s, q[1..], m, now);
    }
  }

  lemma StepIsStable(s: Stores, q: seq<Rank>, now: Time)
    requires StoresValid(s) && Known(s, q) && DistinctQueue(q) && q != []
    ensures var s1 := DispatchOne(s, q[0].id, now);
      && Known(s1, q[1..])
      && Staged(s1, q[1..], s1.jobs.nextID, now) == Staged(s, q[1..], s1.jobs.nextID, now)
      && NumberAfter(s1, q[1..], s1.jobs.nextID) == NumberAfter(s, q[1..], s1.jobs.nextID)
  {
    hide StoresValid; hide D.Dispatched;
    var s1 := DispatchOne(s, q[0].id, now);
    assert forall i | 0 <= i < |q[1..]| :: q[1..][i].id != q[0].id;
    forall i: nat | i > s1.jobs.nextID && Name(JOB, i) in s1.jobs.jobs.Keys ensures Name(JOB, i) in s.jobs.jobs.Keys {
      NameInjective(JOB, i, s1.jobs.nextID);
    }
    StagedIsStable(s, s1, q[1..], s1.jobs.nextID, now);
  }

  /** Stage-then-commit creates the jobs, and leaves the job table, that one-by-one dispatch does. */
  lemma {:induction false} StagedIsOneByOne(s: Stores, q: seq<Rank>, now: Time)
    requires StoresValid(s) && Known(s, q) && DistinctQueue(q)
    ensures var staged := Staged(s, q, s.jobs.nextID, now);
      && (forall i | 0 <= i < |staged| :: staged[i].deltaID.Some?)
      && JobsCreated(s, q, now) == staged
      && DispatchAll(s, q, now).jobs
         == JobTable(NumberAfter(s, q, s.jobs.nextID), CommitJobs(s.jobs.jobs, staged),
                     CommitMapping(s.jobs.jobByDelta, staged))
    decreases |q|
  {
    StagedHaveDeltas(s, q, s.jobs.nextID, now);
    if q != [] {
      assert s.deltas.deltas[q[0].id].id == q[0].id;
      hide NewJob; hide StoresValid; hide D.Dispatched; hide FirstFree;
      var s1 := DispatchOne(s, q[0].id, now);
      DispatchOneKeeps(s, q[0].id, now);
      StepIsStable(s, q, now);
      StagedIsOneByOne(s1, q[1..], now);
      NewJobIdentifiers(s, q[0].id, now);
    }
  }

  lemma NewJobIdentifiers(s: Stores, id: string, now: Time)
    requires id in s.deltas.deltas && s.deltas.deltas[id].id == id
    ensures JobFor(s, id, now).deltaID == Some(id)
  {
  }

  lemma SelectedArePending(s: Stores, ids: seq<Rank>, mapped: seq<string>, staged: seq<SyncJob>)
    requires StoresValid(s) && DistinctQueue(ids) && Known(s, ids)
    requires forall i | 0 <= i < |ids| :: s.deltas.deltas[ids[i].id].state.DeltaPending?
    requires Texts(mapped) + DeltaIDs(staged) == Ids(ids)
    requires forall i | 0 <= i < |staged| :: staged[i].deltaID.Some?
    ensures forall i | 0 <= i < |mapped| ::
              mapped[i] in s.deltas.deltas && s.deltas.deltas[mapped[i]].state.DeltaPending?
    ensures forall i | 0 <= i < |staged| :: staged[i].deltaID.value in s.deltas.deltas
  {
    assert forall i | 0 <= i < |mapped| :: mapped[i] in Texts(mapped);
    assert forall i | 0 <= i < |staged| :: staged[i].deltaID.value in DeltaIDs(staged);
  }

  class MemoryDispatchStore {
    const deltaStore: DeltaMemoryStore
    const jobStore: JobMemoryStore

    ghost function Tables(): Stores
      reads deltaStore, jobStore
    {
      Stores(deltaStore.Table(), jobStore.Table())
    }

    ghost predicate Valid()
      reads deltaStore, jobStore
    {
      StoresValid(Tables())
    }

    constructor (deltaStore: DeltaMemoryStore, jobStore: JobMemoryStore)
      ensures this.deltaStore == deltaStore && this.jobStore == jobStore
    {
      this.deltaStore, this.jobStore := deltaStore, jobStore;
    }

    /** The staging loop: which deltas are mapped already, the new jobs of the others, the next number. */
    method Stage(ids: seq<Rank>, now: Time) returns (staged: seq<SyncJob>, mapped: seq<string>, nextID: nat)
      requires Valid() && Known(Tables(), ids)
      ensures staged == Staged(Tables(), ids, jobStore.nextID, now)
      ensures nextID == NumberAfter(Tables(), ids, jobStore.nextID)
      ensures forall i | 0 <= i < |staged| :: staged[i].deltaID.Some?
      ensures Texts(mapped) + DeltaIDs(staged) == Ids(ids)
    {
      hide StoresValid; hide FirstFree; hide NewJob; hide Ids; hide Texts; hide DeltaIDs;
      staged, mapped, nextID := [], [], jobStore.nextID;
      ghost var s := Tables();
      DeltasAreKeyed(s);
      NothingStaged();
      assert ids[..0] == [];
      for k := 0 to |ids|
        invariant staged + Staged(s, ids[k..], nextID, now) == Staged(s, ids, s.jobs.nextID, now)
        invariant NumberAfter(s, ids[k..], nextID) == NumberAfter(s, ids, s.jobs.nextID)
        invariant forall i | 0 <= i < |staged| :: staged[i].deltaID.Some?
        invariant Texts(mapped) + DeltaIDs(staged) == Ids(ids[..k])
      {
        var id := ids[k].id;
        assert ids[k..][0] == ids[k] && ids[k..][1..] == ids[k + 1..];
        IdsAppend(ids, k);
        if id in jobStore.jobByDelta {
          TextsAppend(mapped, id);
          mapped := mapped + [id];
        } else {
          nextID := Probe(JOB, nextID, jobStore.jobs.Keys);
          var job := NewJob(deltaStore.deltas[id], Name(JOB, nextID), now);
          DeltaIDsAppend(staged, job);
          staged := staged + [job];
        }
      }
      assert ids[|ids|..] == [] && staged + [] == staged && ids[..|ids|] == ids;
    }

    method DispatchPending(cancelled: bool, syncID: string, limit: int, now: Time) returns (r: Result<seq<SyncJob>>)
      requires Valid()
      modifies deltaStore`deltas, jobStore
      ensures Valid()
      ensures cancelled ==> Tables() == old(Tables()) && r == Err(ContextDone)
      ensures !cancelled ==>
                && Tables() == AfterDispatch(old(Tables()), syncID, limit, now)
                && r == Ok(JobsCreated(old(Tables()), Selection(old(Tables()), syncID, limit), now))
      ensures !cancelled ==>
                && F.OldestAreMoved(old(deltaStore.deltas), deltaStore.deltas, syncID, limit, now)
                && r.Ok? && F.JobsAreMade(old(Tables()), Tables(), r.value, now)
    {
      hide F.OldestAreMoved; hide F.JobsAreMade;
      F.DispatchMoves(Tables(), syncID, limit, now);
      F.DispatchMakes(Tables(), syncID, limit, now);
      if cancelled { return Err(ContextDone); }
      if limit <= 0 { return Ok([]); }
      hide StoresValid; hide DispatchAll; hide JobsCreated;
      var ids := OldestPending(syncID, limit);
      SelectionIsDistinct(Tables(), syncID, limit);
      DispatchAllKeeps(Tables(), ids, now);
      var jobs := DispatchIDs(ids, now);
      return Ok(jobs);
    }

    method OldestPending(syncID: string, limit: int) returns (ids: seq<Rank>)
      requires Valid() && limit > 0
      ensures ids == Selection(Tables(), syncID, limit)
    {
      ids := deltaStore.PendingDeltaIDs(syncID);
      ids := Take(ids, limit);
    }

    /** Stage every selected delta, then commit. */
    method DispatchIDs(ids: seq<Rank>, now: Time) returns (staged: seq<SyncJob>)
      requires Valid() && Known(Tables(), ids) && DistinctQueue(ids)
      requires forall i | 0 <= i < |ids| :: deltaStore.deltas[ids[i].id].state.DeltaPending?
      modifies deltaStore`deltas, jobStore
      ensures Tables() == DispatchAll(old(Tables()), ids, now)
      ensures staged == JobsCreated(old(Tables()), ids, now)
    {
      hide StoresValid; hide DispatchAll; hide Staged; hide JobsCreated; hide NumberAfter; hide MarkSet;
      ghost var s := Tables();
      StagedIsOneByOne(s, ids, now);
      DispatchAllMarks(s, ids, now);
      var mapped: seq<string>, nextID: nat;
      staged, mapped, nextID := Stage(ids, now);
      SelectedArePending(s, ids, mapped, staged);
      ghost var marked := MarkMapped(mapped, now);
      ghost var done := Commit(staged, marked, s.deltas.deltas, now);
      jobStore.nextID := nextID;
    }

    /** Already mapped deltas are only marked. */
    method MarkMapped(mapped: seq<string>, now: Time) returns (ghost marked: set<string>)
      requires forall i | 0 <= i < |mapped| ::
                 mapped[i] in deltaStore.deltas && deltaStore.deltas[mapped[i]].state.DeltaPending?
      modifies deltaStore`deltas
      ensures deltaStore.deltas == MarkSet(old(deltaStore.deltas), marked, now)
      ensures marked == Texts(mapped)
    {
      marked := {};
      assert MarkSet(deltaStore.deltas, {}, now) == deltaStore.deltas;
      for i := 0 to |mapped|
        invariant deltaStore.deltas == MarkSet(old(deltaStore.deltas), marked, now)
        invariant marked == Texts(mapped[..i])
      {
        var id := mapped[i];
        if !deltaStore.deltas[id].state.DeltaDispatched? {
          deltaStore.deltas := deltaStore.deltas[id := D.Dispatched(deltaStore.deltas[id], now)];
        }
        TextsAppend(mapped[..i], id);
        assert mapped[..i + 1] == mapped[..i] + [id];
        marked := marked + {id};
      }
      assert mapped[..|mapped|] == mapped;
    }

    static lemma MarkOneMore(deltas: map<string, Delta>, marked: set<string>, id: string, now: Time)
      requires id in deltas
      ensures var some := MarkSet(deltas, marked, now);
        id in some && some[id := D.Dispatched(some[id], now)] == MarkSet(deltas, marked + {id}, now)
    {
    }

    /** The staged jobs are stored, their deltas mapped and marked. */
    method Commit(staged: seq<SyncJob>, ghost marked: set<string>, ghost before: map<string, Delta>, now: Time)
      returns (ghost done: set<string>)
      requires forall i | 0 <= i < |staged| :: staged[i].deltaID.Some? && staged[i].deltaID.value in before
      requires deltaStore.deltas == MarkSet(before, marked, now)
      modifies deltaStore`deltas, jobStore
      ensures deltaStore.deltas == MarkSet(before, done, now)
      ensures done == marked + DeltaIDs(staged)
      ensures jobStore.nextID == old(jobStore.nextID)
      ensures jobStore.jobs == CommitJobs(old(jobStore.jobs), staged)
      ensures jobStore.jobByDelta == CommitMapping(old(jobStore.jobByDelta), staged)
    {
      hide MarkSet; hide DeltaIDs;
      done := marked;
      assert DeltaIDs([]) == {} by { NothingStaged(); }
      assert staged[..0] == [] && marked + {} == marked;
      for i := 0 to |staged|
        invariant deltaStore.deltas == MarkSet(before, done, now)
        invariant done == marked + DeltaIDs(staged[..i])
        invariant jobStore.nextID == old(jobStore.nextID)
        invariant CommitJobs(jobStore.jobs, staged[i..]) == CommitJobs(old(jobStore.jobs), staged)
        invariant CommitMapping(jobStore.jobByDelta, staged[i..]) == CommitMapping(old(jobStore.jobByDelta), staged)
      {
        var item := staged[i];
        assert staged[i..][0] == item && staged[i..][1..] == staged[i + 1..];
        jobStore.jobs := jobStore.jobs[item.id := item];
        jobStore.jobByDelta := jobStore.jobByDelta[item.deltaID.value := item.id];
        MarkOneMore(before, done, item.deltaID.value, now);
        var delta := deltaStore.deltas[item.deltaID.value];
        deltaStore.deltas := deltaStore.deltas[item.deltaID.value := D.Dispatched(delta, now)];
        DeltaIDsAppend(staged[..i], item);
        assert staged[..i + 1] == staged[..i] + [item];
        done := done + {item.deltaID.value};
      }
      assert staged[..|staged|] == staged;
      assert staged[|staged|..] == [];
    }
  }
}
