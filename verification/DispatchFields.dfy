/** What a dispatch moves and creates, in the fields of the deltas and jobs. */
module DispatchFields {
  import opened Types
  import opened Ranks
  import opened Names
  import opened Jobs
  import opened Dispatch
  import opened DeltaFields
  import D = Deltas

  // ----- The outbox -----

  ghost function Moved(before: map<string, Delta>, after: map<string, Delta>): set<string> {
    set id | id in before && id in after && before[id].state == DeltaPending && after[id].state == DeltaDispatched
  }

  /** As many pending deltas of the sync as there are up to the limit become dispatched, the oldest ones; every other
      delta stays as it is. */
  ghost predicate OldestAreMoved(before: map<string, Delta>, after: map<string, Delta>, syncID: string, limit: int,
                                 now: Time) {
    var moved, pending := Moved(before, after), PendingIDs(before, syncID);
    && after.Keys == before.Keys && moved <= pending
    && |moved| == Min(|pending|, if limit < 0 then 0 else limit)
    && (forall id | id in moved :: after[id] == before[id].(state := DeltaDispatched, dispatchedAt := Some(now)))
    && (forall id | id in before && id !in moved :: after[id] == before[id])
    && (forall m, id | m in moved && id in pending && id !in moved :: OccurredBefore(before[m], before[id]))
  }

  lemma MovedArePendingNoMore(before: map<string, Delta>, after: map<string, Delta>, syncID: string, limit: int,
                              now: Time)
    requires OldestAreMoved(before, after, syncID, limit, now) && limit >= 0
    ensures |PendingIDs(after, syncID)| == |PendingIDs(before, syncID)| - Min(|PendingIDs(before, syncID)|, limit)
  {
    hide OccurredBefore;
    assert PendingIDs(after, syncID) == PendingIDs(before, syncID) - Moved(before, after);
  }

  lemma {:induction false} OneIdEach(q: seq<Rank>)
    requires DistinctQueue(q)
    ensures |Ids(q)| == |q|
  {
    if q != [] {
      IdsCons(q);
      OneIdEach(q[1..]);
      assert forall i | 0 <= i < |q[1..]| :: q[1..][i].id == q[i + 1].id != q[0].id;
    }
  }

  lemma SelectionByFields(s: Stores, syncID: string, limit: int)
    requires StoresValid(s)
    ensures OldestFirst(s.deltas.deltas, IdsOf(Selection(s, syncID, limit)), syncID, limit)
  {
    hide Before; hide OccurredBefore; hide D.PendingQueue;
    if limit > 0 { QueueByFields(s.deltas.deltas, syncID, limit); }
  }

  lemma SelectionFindsPending(s: Stores, syncID: string, limit: int)
    requires StoresValid(s) && limit > 0
    ensures Selection(s, syncID, limit) != [] <==> PendingIDs(s.deltas.deltas, syncID) != {}
  {
    hide Selection; hide OccurredBefore;
    SelectionByFields(s, syncID, limit);
  }

  lemma DispatchMoves(s: Stores, syncID: string, limit: int, now: Time)
    requires StoresValid(s)
    ensures OldestAreMoved(s.deltas.deltas, AfterDispatch(s, syncID, limit, now).deltas.deltas, syncID, limit, now)
    ensures Moved(s.deltas.deltas, AfterDispatch(s, syncID, limit, now).deltas.deltas)
         == Ids(Selection(s, syncID, limit))
  {
    hide StoresValid; hide OccurredBefore; hide DispatchAll; hide Selection; hide MarkSet;
    var q := Selection(s, syncID, limit);
    SelectionByFields(s, syncID, limit);
    SelectionIsDistinct(s, syncID, limit);
    DispatchAllMarks(s, q, now);
    OneIdEach(q);
    MarkedAreMoved(s.deltas.deltas, q, syncID, limit, now);
  }

  lemma ListedIds(q: seq<Rank>)
    ensures |IdsOf(q)| == |q| && (forall i | 0 <= i < |q| :: IdsOf(q)[i] == q[i].id)
    ensures forall id :: id in IdsOf(q) <==> id in Ids(q)
  {
    var ids := IdsOf(q);
    assert forall i | 0 <= i < |q| :: ids[i] == q[i].id;
    assert forall id | id in Ids(q) :: id in ids;
  }

  lemma MarkedAreMoved(deltas: map<string, Delta>, q: seq<Rank>, syncID: string, limit: int, now: Time)
    requires OldestFirst(deltas, IdsOf(q), syncID, limit) && |Ids(q)| == |q|
    ensures OldestAreMoved(deltas, MarkSet(deltas, Ids(q), now), syncID, limit, now)
    ensures Moved(deltas, MarkSet(deltas, Ids(q), now)) == Ids(q)
  {
    hide OccurredBefore; hide Ids; hide IdsOf;
    ListedIds(q);
    assert Moved(deltas, MarkSet(deltas, Ids(q), now)) == Ids(q);
  }

  // ----- The new jobs -----

  /** The outbox job of a delta: its identity, no attempts yet, due at once. */
  ghost predicate IsJobOf(job: SyncJob, d: Delta, id: string, now: Time) {
    && job.id == id && job.deltaID == Some(d.id) && job.origin == Outbox && job.syncID == d.syncID
    && job.projectionType == d.projectionType && job.projectionKey == d.projectionKey
    && job.projectionKeyHash == d.projectionKeyHash
    && job.state == Pending && job.attemptCount == 0 && job.maxAttempts == 5
    && job.availableAt == now && job.createdAt == now && job.updatedAt == now
    && job.lastError == None && job.lastErrorCode == None && job.lockedBy == None && job.lockedUntil == None
    && !job.ghostDetected && job.syncedAt == None && job.deadAt == None
  }

  /** The moved deltas that had no job get one each, numbered in the order of their occurrence; stored jobs stay. */
  ghost predicate JobsAreMade(before: Stores, after: Stores, created: seq<SyncJob>, now: Time) {
    var deltas, moved := before.deltas.deltas, Moved(before.deltas.deltas, after.deltas.deltas);
    && (forall i | 0 <= i < |created| ::
          && created[i].deltaID != None && created[i].deltaID.value in moved
          && created[i].deltaID.value !in before.jobs.jobByDelta
          && IsJobOf(created[i], deltas[created[i].deltaID.value], "job-" + Decimal(before.jobs.nextID + 1 + i), now))
    && (forall i, k | 0 <= i < k < |created| ::
          OccurredBefore(deltas[created[i].deltaID.value], deltas[created[k].deltaID.value]))
    && (forall id | id in moved && id !in before.jobs.jobByDelta ::
          exists i :: 0 <= i < |created| && created[i].deltaID == Some(id))
    && JobsAreAdded(before.jobs, after.jobs, created)
  }

  ghost predicate JobsAreAdded(before: JobTable, after: JobTable, created: seq<SyncJob>) {
    && after.nextID == before.nextID + |created|
    && (forall id | id in before.jobs :: id in after.jobs && after.jobs[id] == before.jobs[id])
    && (forall i | 0 <= i < |created| :: created[i].id !in before.jobs && created[i].id in after.jobs
                                         && after.jobs[created[i].id] == created[i])
    && (forall id | id in after.jobs && id !in before.jobs :: InBatch(created, id))
  }

  /** The selected deltas without a job. */
  ghost function Unmapped(t: JobTable, q: seq<Rank>): seq<Rank> {
    if q == [] then [] else (if q[0].id in t.jobByDelta then [] else [q[0]]) + Unmapped(t, q[1..])
  }

  lemma {:induction false} UnmappedIsFilter(t: JobTable, q: seq<Rank>)
    requires Ascending(q)
    ensures Ascending(Unmapped(t, q))
    ensures forall r :: r in Unmapped(t, q) <==> r in q && r.id !in t.jobByDelta
  {
    hide Before;
    if q != [] {
      UnmappedIsFilter(t, q[1..]);
      var rest := Unmapped(t, q[1..]);
      assert forall i | 0 <= i < |q[1..]| :: q[1..][i] == q[i + 1];
      assert q == [q[0]] + q[1..];
      assert forall i | 0 <= i < |rest| :: rest[i] in rest;
      if q[0].id !in t.jobByDelta { ConsAscends(q[0], rest); }
    }
  }

  /** The outbox jobs of a list of deltas, with the numbers above n. */
  ghost function NewJobs(s: Stores, u: seq<Rank>, n: nat, now: Time): seq<SyncJob>
    requires Known(s, u)
  {
    if u == [] then []
    else [NewJob(s.deltas.deltas[u[0].id], Name(JOB, n + 1), now)] + NewJobs(s, u[1..], n + 1, now)
  }

  lemma {:induction false} NewJobAt(s: Stores, u: seq<Rank>, n: nat, now: Time, i: int)
    requires Known(s, u)
    ensures |NewJobs(s, u, n, now)| == |u|
    ensures 0 <= i < |u| ==>
              NewJobs(s, u, n, now)[i] == NewJob(s.deltas.deltas[u[i].id], Name(JOB, n + 1 + i), now)
  {
    hide NewJob; hide Name;
    if u != [] { NewJobAt(s, u[1..], n + 1, now, i - 1); }
  }

  /** The listing of new jobs depends on the mappings and deltas of the selected only. */
  lemma {:induction false} SameNewJobs(s: Stores, s': Stores, q: seq<Rank>, n: nat, now: Time)
    requires Known(s, q) && Known(s', q)
    requires forall i | 0 <= i < |q| :: q[i].id in s'.jobs.jobByDelta <==> q[i].id in s.jobs.jobByDelta
    requires forall i | 0 <= i < |q| :: s'.deltas.deltas[q[i].id] == s.deltas.deltas[q[i].id]
    ensures Known(s, Unmapped(s.jobs, q)) && Known(s', Unmapped(s'.jobs, q))
    ensures NewJobs(s', Unmapped(s'.jobs, q), n, now) == NewJobs(s, Unmapped(s.jobs, q), n, now)
  {
    hide NewJob; hide Name;
    if q != [] {
      assert forall i | 0 <= i < |q[1..]| :: q[1..][i] == q[i + 1];
      var m := if q[0].id in s.jobs.jobByDelta then n else n + 1;
      SameNewJobs(s, s', q[1..], m, now);
      UnmappedCons(s.jobs, q);
      UnmappedCons(s'.jobs, q);
    }
  }

  lemma UnmappedCons(t: JobTable, q: seq<Rank>)
    requires q != []
    ensures if q[0].id in t.jobByDelta then Unmapped(t, q) == Unmapped(t, q[1..])
            else Unmapped(t, q) != [] && Unmapped(t, q)[0] == q[0] && Unmapped(t, q)[1..] == Unmapped(t, q[1..])
  {
  }

  /** One delta: its job, if it had none, is the next one; everything else stays. */
  lemma OneIsMade(s: Stores, id: string, now: Time)
    requires StoresValid(s) && id in s.deltas.deltas
    ensures var s', job := DispatchOne(s, id, now), JobFor(s, id, now);
      && StoresValid(s') && job == NewJob(s.deltas.deltas[id], Name(JOB, s.jobs.nextID + 1), now)
      && s'.jobs.jobByDelta.Keys == s.jobs.jobByDelta.Keys + {id}
      && JobsAreAdded(s.jobs, s'.jobs, if id in s.jobs.jobByDelta then [] else [job])
      && s'.jobs.nextID == s.jobs.nextID + (if id in s.jobs.jobByDelta then 0 else 1)
      && (forall other | other in s.deltas.deltas && other != id :: s'.deltas.deltas[other] == s.deltas.deltas[other])
  {
    hide NewJob; hide D.DeltasValid; hide D.Dispatched; hide Keyed; hide Mapped;
    DispatchOneKeeps(s, id, now);
    NextIsFree(JOB, s.jobs.nextID, s.jobs.jobs.Keys);
    assert [JobFor(s, id, now)][0] == JobFor(s, id, now);
  }

  lemma AddedJoin(t: JobTable, t1: JobTable, t2: JobTable, a: seq<SyncJob>, b: seq<SyncJob>)
    requires JobsAreAdded(t, t1, a) && JobsAreAdded(t1, t2, b)
    ensures JobsAreAdded(t, t2, a + b)
  {
    hide InBatch;
    forall id | id in t2.jobs && id !in t.jobs ensures InBatch(a + b, id) {
      InEither(a, b, id);
    }
  }

  lemma InEither(a: seq<SyncJob>, b: seq<SyncJob>, id: string)
    ensures InBatch(a, id) || InBatch(b, id) ==> InBatch(a + b, id)
  {
    if k :| 0 <= k < |a| && a[k].id == id { assert (a + b)[k].id == id; }
    if k :| 0 <= k < |b| && b[k].id == id { assert (a + b)[|a| + k].id == id; }
  }

  lemma NothingAdded(t: JobTable)
    ensures JobsAreAdded(t, t, [])
  {
  }

  lemma {:induction false} CreatedAreAdded(s: Stores, q: seq<Rank>, now: Time)
    requires StoresValid(s) && Known(s, q)
    ensures JobsAreAdded(s.jobs, DispatchAll(s, q, now).jobs, JobsCreated(s, q, now))
    decreases |q|
  {
    hide StoresValid; hide NewJob; hide JobsAreAdded; hide DispatchOne; hide JobFor;
    if q == [] {
      NothingAdded(s.jobs);
    } else {
      var s1 := DispatchOne(s, q[0].id, now);
      OneIsMade(s, q[0].id, now);
      CreatedAreAdded(s1, q[1..], now);
      AddedJoin(s.jobs, s1.jobs, DispatchAll(s, q, now).jobs,
                if q[0].id in s.jobs.jobByDelta then [] else [JobFor(s, q[0].id, now)], JobsCreated(s1, q[1..], now));
    }
  }

  lemma {:induction false} CreatedAreNewJobs(s: Stores, q: seq<Rank>, now: Time)
    requires StoresValid(s) && Known(s, q) && DistinctQueue(q)
    ensures Known(s, Unmapped(s.jobs, q))
    ensures JobsCreated(s, q, now) == NewJobs(s, Unmapped(s.jobs, q), s.jobs.nextID, now)
    decreases |q|
  {
    hide StoresValid; hide NewJob; hide JobsAreAdded; hide DispatchOne; hide JobFor; hide Name;
    if q != [] {
      var s1, rest := DispatchOne(s, q[0].id, now), q[1..];
      OneIsMade(s, q[0].id, now);
      assert forall i | 0 <= i < |rest| :: rest[i] == q[i + 1] && rest[i].id != q[0].id;
      CreatedAreNewJobs(s1, rest, now);
      SameNewJobs(s, s1, rest, s1.jobs.nextID, now);
      UnmappedCons(s.jobs, q);
    }
  }

  lemma NewJobIsJobOf(d: Delta, id: string, now: Time)
    ensures IsJobOf(NewJob(d, id, now), d, id, now)
  {
  }

  /** The new jobs of a list of pending deltas that ascends. */
  lemma NewJobsByFields(s: Stores, q: seq<Rank>, u: seq<Rank>, created: seq<SyncJob>, now: Time)
    requires D.DeltasKeyed(s.deltas.deltas) && Known(s, u) && Ascending(u)
    requires forall r :: r in u <==> r in q && r.id !in s.jobs.jobByDelta
    requires forall i | 0 <= i < |u| :: D.PendingRank(s.deltas.deltas[u[i].id]) == u[i]
    requires created == NewJobs(s, u, s.jobs.nextID, now)
    ensures forall i | 0 <= i < |created| ::
              && created[i].deltaID != None && created[i].deltaID.value in Ids(q)
              && created[i].deltaID.value in s.deltas.deltas && created[i].deltaID.value !in s.jobs.jobByDelta
              && IsJobOf(created[i], s.deltas.deltas[created[i].deltaID.value],
                         "job-" + Decimal(s.jobs.nextID + 1 + i), now)
    ensures forall i, k | 0 <= i < k < |created| ::
              OccurredBefore(s.deltas.deltas[created[i].deltaID.value], s.deltas.deltas[created[k].deltaID.value])
    ensures forall id | id in Ids(q) && id !in s.jobs.jobByDelta ::
              exists i :: 0 <= i < |created| && created[i].deltaID == Some(id)
  {
    hide NewJob; hide IsJobOf; hide NewJobs; hide OccurredBefore; hide Before; hide Decimal; hide D.PendingRank;
    NewJobAt(s, u, s.jobs.nextID, now, 0);
    forall i | 0 <= i < |created|
      ensures created[i].deltaID == Some(u[i].id) && u[i].id in Ids(q) && u[i].id !in s.jobs.jobByDelta
      ensures IsJobOf(created[i], s.deltas.deltas[u[i].id], "job-" + Decimal(s.jobs.nextID + 1 + i), now)
    {
      NewJobAt(s, u, s.jobs.nextID, now, i);
      NewJobIsJobOf(s.deltas.deltas[u[i].id], Name(JOB, s.jobs.nextID + 1 + i), now);
      assert u[i] in u;
    }
    forall i, k | 0 <= i < k < |u| ensures OccurredBefore(s.deltas.deltas[u[i].id], s.deltas.deltas[u[k].id]) {
      PendingRankIsOccurrence(s.deltas.deltas[u[i].id], s.deltas.deltas[u[k].id]);
    }
    forall id | id in Ids(q) && id !in s.jobs.jobByDelta
      ensures exists i :: 0 <= i < |created| && created[i].deltaID == Some(id)
    {
      var k :| 0 <= k < |q| && q[k].id == id;
      assert q[k] in u;
      var i :| 0 <= i < |u| && u[i] == q[k];
      assert created[i].deltaID == Some(id);
    }
  }

  lemma SelectionLists(s: Stores, syncID: string, limit: int)
    requires StoresValid(s)
    ensures D.DeltasKeyed(s.deltas.deltas)
    ensures var q, u := Selection(s, syncID, limit), Unmapped(s.jobs, Selection(s, syncID, limit));
      && Ascending(u) && (forall r :: r in u <==> r in q && r.id !in s.jobs.jobByDelta)
      && forall i | 0 <= i < |u| ::
           u[i].id in s.deltas.deltas && D.PendingRank(s.deltas.deltas[u[i].id]) == u[i]
  {
    hide Before; hide FreshAbove; hide D.Indexed; hide JobsValid; hide Unmapped;
    UnmappedIsFilter(s.jobs, Selection(s, syncID, limit));
  }

  /** A dispatch makes the jobs it should. */
  lemma DispatchMakes(s: Stores, syncID: string, limit: int, now: Time)
    requires StoresValid(s)
    ensures JobsAreMade(s, AfterDispatch(s, syncID, limit, now), JobsCreated(s, Selection(s, syncID, limit), now), now)
  {
    hide StoresValid; hide OccurredBefore; hide DispatchAll; hide Selection; hide NewJob; hide IsJobOf;
    hide OldestAreMoved; hide JobsCreated; hide NewJobs; hide JobsAreAdded; hide Unmapped; hide Ids; hide Ascending;
    hide Moved; hide D.PendingRank;
    var q := Selection(s, syncID, limit);
    DispatchMoves(s, syncID, limit, now);
    SelectionIsDistinct(s, syncID, limit);
    SelectionLists(s, syncID, limit);
    CreatedAreAdded(s, q, now);
    CreatedAreNewJobs(s, q, now);
    NewJobsByFields(s, q, Unmapped(s.jobs, q), JobsCreated(s, q, now), now);
  }
}
