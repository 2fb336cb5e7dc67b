/** Dispatch moves pending deltas of the outbox into the job table. */
module Dispatch {
  import opened Types
  import opened Ranks
  import opened Names
  import opened Jobs
  import D = Deltas

  datatype Stores = Stores(deltas: D.DeltaTable, jobs: JobTable)

  ghost predicate StoresValid(s: Stores) {
    D.DeltasValid(s.deltas) && JobsValid(s.jobs)
  }

  /** The outbox job of a delta: its identity, fresh attempts, due at once. */
  function NewJob(d: Delta, jobID: string, now: Time): (job: SyncJob)
    ensures job.id == jobID && job.deltaID == Some(d.id)
  {
    SyncJob(jobID, d.syncID, Some(d.id), Outbox, d.projectionType, d.projectionKey, d.projectionKeyHash,
            Pending, 0, DEFAULT_MAX_ATTEMPTS, None, None, now, None, None, false, None, None, now, now)
  }

  // ----- One delta at a time -----

  ghost function JobFor(s: Stores, id: string, now: Time): SyncJob
    requires id in s.deltas.deltas
  {
    NewJob(s.deltas.deltas[id], Name(JOB, FirstFree(JOB, s.jobs.nextID, s.jobs.jobs.Keys)), now)
  }

  ghost function DispatchOne(s: Stores, id: string, now: Time): (s': Stores)
    requires id in s.deltas.deltas
    ensures s'.deltas.deltas.Keys == s.deltas.deltas.Keys
  {
    var deltas := s.deltas.(deltas := s.deltas.deltas[id := D.Dispatched(s.deltas.deltas[id], now)]);
    if id in s.jobs.jobByDelta then Stores(deltas, s.jobs)
    else
      var job := JobFor(s, id, now);
      Stores(deltas, JobTable(FirstFree(JOB, s.jobs.nextID, s.jobs.jobs.Keys), s.jobs.jobs[job.id := job],
                              s.jobs.jobByDelta[id := job.id]))
  }

  ghost predicate Known(s: Stores, q: seq<Rank>) {
    forall i | 0 <= i < |q| :: q[i].id in s.deltas.deltas
  }

  ghost function DispatchAll(s: Stores, q: seq<Rank>, now: Time): (s': Stores)
    requires Known(s, q)
    ensures s'.deltas.deltas.Keys == s.deltas.deltas.Keys
    decreases |q|
  {
    if q == [] then s else DispatchAll(DispatchOne(s, q[0].id, now), q[1..], now)
  }

  ghost function JobsCreated(s: Stores, q: seq<Rank>, now: Time): seq<SyncJob>
    requires Known(s, q)
    decreases |q|
  {
    if q == [] then []
    else (if q[0].id in s.jobs.jobByDelta then [] else [JobFor(s, q[0].id, now)])
         + JobsCreated(DispatchOne(s, q[0].id, now), q[1..], now)
  }

  /** `DispatchPending`: the oldest `limit` pending deltas of a sync. */
  ghost function Selection(s: Stores, syncID: string, limit: int): (q: seq<Rank>)
    requires StoresValid(s)
    ensures Known(s, q)
  {
    if limit <= 0 then [] else Take(D.PendingQueue(s.deltas.deltas, syncID), limit)
  }

  ghost function AfterDispatch(s: Stores, syncID: string, limit: int, now: Time): Stores
    requires StoresValid(s)
  {
    DispatchAll(s, Selection(s, syncID, limit), now)
  }

  // ----- What one dispatch keeps -----

  lemma MarkKeeps(t: D.DeltaTable, id: string, now: Time)
    requires D.DeltasValid(t) && id in t.deltas
    ensures D.DeltasValid(t.(deltas := t.deltas[id := D.Dispatched(t.deltas[id], now)]))
  {
    assert t.deltas[id := D.Dispatched(t.deltas[id], now)].Keys == t.deltas.Keys;
  }

  lemma DispatchOneKeeps(s: Stores, id: string, now: Time)
    requires StoresValid(s) && id in s.deltas.deltas
    ensures StoresValid(DispatchOne(s, id, now))
  {
    assert s.deltas.deltas[id].id == id;
    hide D.DeltasValid; hide JobsValid;
    MarkKeeps(s.deltas, id, now);
    if id !in s.jobs.jobByDelta {
      AddOutboxKeeps(s.jobs, JobFor(s, id, now), FirstFree(JOB, s.jobs.nextID, s.jobs.jobs.Keys));
    }
  }

  lemma {:induction false} DispatchAllKeeps(s: Stores, q: seq<Rank>, now: Time)
    requires StoresValid(s) && Known(s, q)
    ensures StoresValid(DispatchAll(s, q, now))
    decreases |q|
  {
    hide StoresValid; hide NewJob;
    if q != [] {
      DispatchOneKeeps(s, q[0].id, now);
      DispatchAllKeeps(DispatchOne(s, q[0].id, now), q[1..], now);
    }
  }

  function MarkSet(deltas: map<string, Delta>, ids: set<string>, now: Time): map<string, Delta> {
    map id | id in deltas :: if id in ids then D.Dispatched(deltas[id], now) else deltas[id]
  }

  /** The outbox afterwards: the selected deltas are dispatched, every other delta is as it was. */
  lemma {:induction false} DispatchAllMarks(s: Stores, q: seq<Rank>, now: Time)
    requires Known(s, q)
    ensures DispatchAll(s, q, now).deltas == s.deltas.(deltas := MarkSet(s.deltas.deltas, Ids(q), now))
    decreases |q|
  {
    hide NewJob; hide JobFor;
    if q == [] {
      assert Ids(q) == {};
      assert MarkSet(s.deltas.deltas, {}, now) == s.deltas.deltas;
    } else {
      var s1 := DispatchOne(s, q[0].id, now);
      DispatchAllMarks(s1, q[1..], now);
      assert q == [q[0]] + q[1..];
      IdsCons(q);
    }
  }

  lemma IdsCons(q: seq<Rank>)
    requires q != []
    ensures Ids(q) == {q[0].id} + Ids(q[1..])
  {
    assert forall i | 1 <= i < |q| :: q[1..][i - 1] == q[i];
  }

  /** The job table afterwards: old jobs and mappings are untouched, and each selected delta that had
      no job has exactly one, new, with the delta's identity copied. */
  lemma {:induction false} DispatchAllCreates(s: Stores, q: seq<Rank>, now: Time)
    requires StoresValid(s) && Known(s, q)
    ensures var s' := DispatchAll(s, q, now);
      && (forall id | id in s.jobs.jobs :: id in s'.jobs.jobs && s'.jobs.jobs[id] == s.jobs.jobs[id])
      && (forall d | d in s.jobs.jobByDelta :: d in s'.jobs.jobByDelta && s'.jobs.jobByDelta[d] == s.jobs.jobByDelta[d])
      && s'.jobs.jobByDelta.Keys == s.jobs.jobByDelta.Keys + Ids(q)
    decreases |q|
  {
    hide NewJob; hide StoresValid; hide D.Dispatched;
    if q == [] {
      assert Ids(q) == {};
    } else {
      JobForIsNew(s, q[0].id, now);
      DispatchOneKeeps(s, q[0].id, now);
      DispatchAllCreates(DispatchOne(s, q[0].id, now), q[1..], now);
      IdsCons(q);
    }
  }

  lemma JobForIsNew(s: Stores, id: string, now: Time)
    requires StoresValid(s) && id in s.deltas.deltas
    ensures JobFor(s, id, now).id !in s.jobs.jobs
  {
  }

  ghost predicate DistinctQueue(q: seq<Rank>) {
    forall i, j | 0 <= i < j < |q| :: q[i].id != q[j].id
  }

  lemma SelectionIsDistinct(s: Stores, syncID: string, limit: int)
    requires StoresValid(s)
    ensures DistinctQueue(Selection(s, syncID, limit))
    ensures var q := Selection(s, syncID, limit);
      forall i | 0 <= i < |q| ::
              s.deltas.deltas[q[i].id].state.DeltaPending? && s.deltas.deltas[q[i].id].syncID == syncID
  {
    hide Before;
    var deltas, q := s.deltas.deltas, Selection(s, syncID, limit);
    D.PendingQueueLists(deltas, syncID);
    forall i, j | 0 <= i < j < |q| ensures q[i].id != q[j].id {
      DistinctPositions(q, i, j);
    }
  }

  /** Every job the dispatch adds is the new job of one of the selected deltas. */
  lemma {:induction false} DispatchAllCopiesIdentity(s: Stores, q: seq<Rank>, now: Time)
    requires StoresValid(s) && Known(s, q) && DistinctQueue(q)
    ensures var s' := DispatchAll(s, q, now);
      forall id | id in s'.jobs.jobs && id !in s.jobs.jobs ::
        exists i :: 0 <= i < |q| && q[i].id !in s.jobs.jobByDelta
                    && s'.jobs.jobs[id] == NewJob(s.deltas.deltas[q[i].id], id, now)
    decreases |q|
  {
    hide NewJob; hide StoresValid; hide D.Dispatched;
    if q != [] {
      var s1 := DispatchOne(s, q[0].id, now);
      DispatchOneKeeps(s, q[0].id, now);
      JobForIsNew(s, q[0].id, now);
      DispatchAllCopiesIdentity(s1, q[1..], now);
      DispatchAllCreates(s1, q[1..], now);
      var s' := DispatchAll(s, q, now);
      forall id | id in s'.jobs.jobs && id !in s.jobs.jobs
        ensures exists i :: 0 <= i < |q| && q[i].id !in s.jobs.jobByDelta
                            && s'.jobs.jobs[id] == NewJob(s.deltas.deltas[q[i].id], id, now)
      {
        if id in s1.jobs.jobs {
          FirstJobIsCopied(s, q, now, id);
        } else {
          var i :| 0 <= i < |q[1..]| && q[1..][i].id !in s1.jobs.jobByDelta
                   && s'.jobs.jobs[id] == NewJob(s1.deltas.deltas[q[1..][i].id], id, now);
          assert q[i + 1].id != q[0].id;
        }
      }
    }
  }

  lemma FirstJobIsCopied(s: Stores, q: seq<Rank>, now: Time, id: string)
    requires StoresValid(s) && Known(s, q) && q != []
    requires id in DispatchOne(s, q[0].id, now).jobs.jobs && id !in s.jobs.jobs
    ensures q[0].id !in s.jobs.jobByDelta
    ensures DispatchOne(s, q[0].id, now).jobs.jobs[id] == NewJob(s.deltas.deltas[q[0].id], id, now)
  {
  }

  // ----- Composition -----

  lemma {:induction false} DispatchAllSplits(s: Stores, a: seq<Rank>, b: seq<Rank>, now: Time)
    requires Known(s, a) && Known(s, b) && Known(s, a + b)
    ensures DispatchAll(s, a + b, now) == DispatchAll(DispatchAll(s, a, now), b, now)
    ensures JobsCreated(s, a + b, now) == JobsCreated(s, a, now) + JobsCreated(DispatchAll(s, a, now), b, now)
    decreases |a|
  {
    hide DispatchOne; hide JobFor;
    if a == [] {
      assert a + b == b;
    } else {
      assert (a + b)[1..] == a[1..] + b && (a + b)[0] == a[0];
      DispatchAllSplits(DispatchOne(s, a[0].id, now), a[1..], b, now);
    }
  }

  lemma QueueAfterMark(deltas: map<string, Delta>, syncID: string, k: nat, now: Time)
    requires D.DeltasKeyed(deltas) && k <= |D.PendingQueue(deltas, syncID)|
    ensures var q := D.PendingQueue(deltas, syncID);
      D.PendingQueue(MarkSet(deltas, Ids(q[..k]), now), syncID) == q[k..]
  {
    hide Before;
    RanksAfterMark(deltas, syncID, D.PendingQueue(deltas, syncID)[..k], now);
    SortedDrop(D.PendingRanks(deltas, syncID), k);
  }

  /** After a dispatch the pending queue is what the dispatch left of it. */
  lemma QueueAfterDispatch(s: Stores, syncID: string, limit: int, now: Time)
    requires StoresValid(s) && limit > 0
    ensures StoresValid(AfterDispatch(s, syncID, limit, now))
    ensures var q := D.PendingQueue(s.deltas.deltas, syncID);
      D.PendingQueue(AfterDispatch(s, syncID, limit, now).deltas.deltas, syncID) == q[|Take(q, limit)|..]
  {
    hide Before; hide JobsValid; hide FreshAbove; hide D.Indexed; hide DispatchAll; hide MarkSet; hide D.PendingQueue;
    hide D.ListsDeltas;
    var q := D.PendingQueue(s.deltas.deltas, syncID);
    var taken := Selection(s, syncID, limit);
    DispatchAllKeeps(s, taken, now);
    DispatchAllMarks(s, taken, now);
    assert taken == q[..|taken|];
    QueueAfterMark(s.deltas.deltas, syncID, |taken|, now);
  }

  lemma RanksAfterMark(deltas: map<string, Delta>, syncID: string, taken: seq<Rank>, now: Time)
    requires D.DeltasKeyed(deltas)
    requires forall i | 0 <= i < |taken| :: taken[i].id in deltas && D.PendingRank(deltas[taken[i].id]) == taken[i]
    ensures D.PendingRanks(MarkSet(deltas, Ids(taken), now), syncID) == D.PendingRanks(deltas, syncID) - Elements(taken)
  {
    var after := MarkSet(deltas, Ids(taken), now);
    forall r | r in D.PendingRanks(deltas, syncID) && r !in Elements(taken) ensures r in D.PendingRanks(after, syncID) {
      assert r.id in deltas && D.PendingRank(deltas[r.id]) == r;
      assert forall i | 0 <= i < |taken| :: taken[i] in Elements(taken);
      assert after[r.id] == deltas[r.id];
    }
    forall r | r in D.PendingRanks(after, syncID)
      ensures r in D.PendingRanks(deltas, syncID) && r !in Elements(taken)
    {
      var id :| id in after && after[id].state.DeltaPending? && after[id].syncID == syncID
                && D.PendingRank(after[id]) == r;
      assert id !in Ids(taken) && after[id] == deltas[id];
    }
  }

  lemma SelectionSplits(s: Stores, syncID: string, a: int, b: int, now: Time)
    requires StoresValid(s) && a > 0 && b > 0
    ensures StoresValid(AfterDispatch(s, syncID, a, now))
    ensures Selection(s, syncID, a + b)
         == Selection(s, syncID, a) + Selection(AfterDispatch(s, syncID, a, now), syncID, b)
    ensures Known(s, Selection(AfterDispatch(s, syncID, a, now), syncID, b))
  {
    hide Before; hide StoresValid; hide D.ListsDeltas; hide AfterDispatch; hide D.PendingQueue;
    QueueAfterDispatch(s, syncID, a, now);
    var both, second := Selection(s, syncID, a + b), Selection(AfterDispatch(s, syncID, a, now), syncID, b);
    assert both == Selection(s, syncID, a) + second;
    assert forall i | 0 <= i < |second| :: second[i] == both[|both| - |second| + i];
  }

  /** Dispatching a and then b deltas at one instant is dispatching a + b: same outbox, same jobs with
      the same ids, same counter, same jobs reported. */
  lemma DispatchComposes(s: Stores, syncID: string, a: int, b: int, now: Time)
    requires StoresValid(s) && a > 0 && b > 0
    ensures StoresValid(AfterDispatch(s, syncID, a, now))
    ensures AfterDispatch(AfterDispatch(s, syncID, a, now), syncID, b, now) == AfterDispatch(s, syncID, a + b, now)
    ensures JobsCreated(s, Selection(s, syncID, a + b), now)
         == JobsCreated(s, Selection(s, syncID, a), now)
            + JobsCreated(AfterDispatch(s, syncID, a, now),
                          Selection(AfterDispatch(s, syncID, a, now), syncID, b), now)
  {
    hide StoresValid; hide Selection; hide Known;
    SelectionSplits(s, syncID, a, b, now);
    DispatchAllSplits(s, Selection(s, syncID, a), Selection(AfterDispatch(s, syncID, a, now), syncID, b), now);
  }
}
