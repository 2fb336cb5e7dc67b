/** The claim side of the SQLite job store: rows with instants truncated to microseconds, a batch claim that
    is a loop of transactions, and its compensation when one of them fails. */
module Sqlite {
  import opened Types
  import opened Ranks
  import opened Jobs
  import opened JobFields
  import opened Releases
  import C = Claims
  import L = ClaimLoops

  /** `time.UnixMicro`, which rounds down. */
  function Micros(t: Time): Time {
    t / MICROSECOND
  }

  /** One transaction of the claim loop: whether its context is done, whether one of its statements or its
      commit fails, and the clock it reads. */
  datatype Transaction = Transaction(cancelled: bool, fails: bool, now: Time)

  function AttemptOf(x: Transaction, lockFor: int): L.Attempt {
    L.Attempt(if x.cancelled then Some(ContextDone) else if x.fails then Some(StorageFault) else None,
              Micros(x.now), Micros(x.now + lockFor))
  }

  function TransactionAttempts(xs: seq<Transaction>, lockFor: int): (ws: seq<L.Attempt>)
    ensures |ws| == |xs| && forall i | 0 <= i < |ws| :: ws[i] == AttemptOf(xs[i], lockFor)
  {
    seq(|xs|, i requires 0 <= i < |xs| => AttemptOf(xs[i], lockFor))
  }

  // ----- What truncation does to a lease -----

  /** Truncation rounds down to whole microseconds of 1000 ns. */
  lemma MicrosRoundDown(t: Time)
    ensures Micros(t) * 1000 <= t < (Micros(t) + 1) * 1000
  {
  }

  /** A lease survives truncation exactly if it reaches into the next microsecond; one of at least a
      microsecond always does. */
  lemma LeaseSurvivesTruncation(now: Time, lockFor: int)
    requires lockFor > 0
    ensures Micros(now) < Micros(now + lockFor) <==> now % MICROSECOND + lockFor >= MICROSECOND
    ensures lockFor >= MICROSECOND ==> Micros(now) < Micros(now + lockFor)
  {
    var q, r := now / MICROSECOND, now % MICROSECOND;
    assert now == q * MICROSECOND + r;
    if r + lockFor < MICROSECOND {
      assert (now + lockFor) / MICROSECOND == q;
    } else {
      assert (now + lockFor) / MICROSECOND >= q + 1;
    }
  }

  /** A lease that is over as soon as it is given leaves the claim queue as it was. */
  lemma DeadLeaseKeepsQueue(jobs: map<string, SyncJob>, id: string, syncID: string, workerID: string, now: Time,
                            until: Time)
    requires Keyed(jobs) && id in jobs && Claimable(jobs[id], now, syncID) && until <= now
    ensures ClaimQueue(Lease(jobs, id, workerID, now, until), syncID, now) == ClaimQueue(jobs, syncID, now)
  {
    hide Before;
    var after := Lease(jobs, id, workerID, now, until);
    assert forall other | other in jobs :: Claimable(after[other], now, syncID) == Claimable(jobs[other], now, syncID)
                                           && ClaimRank(after[other]) == ClaimRank(jobs[other]);
    assert ClaimRanks(after, syncID, now) == ClaimRanks(jobs, syncID, now);
  }

  /** Then every iteration of the loop claims the same row. */
  lemma {:induction false} SameRowAgain(t: JobTable, syncID: string, workerID: string, ws: seq<L.Attempt>, now: Time,
                                        until: Time)
    requires Keyed(t.jobs) && until <= now && ClaimQueue(t.jobs, syncID, now) != []
    requires forall i | 0 <= i < |ws| :: ws[i] == L.Attempt(None, now, until)
    ensures |L.LoopOf(t, syncID, workerID, ws)| == |ws|
    ensures forall k | 0 <= k < |ws| :: L.LoopOf(t, syncID, workerID, ws)[k].id == ClaimQueue(t.jobs, syncID, now)[0].id
    decreases |ws|
  {
    hide Before; hide Sorted;
    if ws != [] {
      QueueLists(t.jobs, syncID, now);
      DeadLeaseKeepsQueue(t.jobs, ClaimQueue(t.jobs, syncID, now)[0].id, syncID, workerID, now, until);
      SameRowAgain(AfterClaim(t, syncID, workerID, now, until), syncID, workerID, ws[1..], now, until);
    }
  }

  /** The SQLite batch claims distinct jobs exactly if the lease survives truncation: with something to claim
      and room for two, a lease that does not is claimed over and over. */
  lemma DistinctIfLeaseSurvives(t: JobTable, syncID: string, workerID: string, xs: seq<Transaction>, now: Time,
                                lockFor: int)
    requires Keyed(t.jobs) && lockFor > 0 && |xs| >= 2
    requires forall i | 0 <= i < |xs| :: xs[i] == Transaction(false, false, now)
    requires ClaimQueue(t.jobs, syncID, Micros(now)) != []
    ensures Batch(t.jobs, L.LoopOf(t, syncID, workerID, TransactionAttempts(xs, lockFor)))
      <==> now % MICROSECOND + lockFor >= MICROSECOND
  {
    hide ClaimQueue; hide L.LoopOf;
    LeaseSurvivesTruncation(now, lockFor);
    var ws := TransactionAttempts(xs, lockFor);
    var claimed := L.LoopOf(t, syncID, workerID, ws);
    if Micros(now) < Micros(now + lockFor) {
      L.LoopTakesJobs(t, syncID, workerID, ws);
      L.LoopIsDistinct(t, syncID, workerID, ws);
    } else {
      SameRowAgain(t, syncID, workerID, ws, Micros(now), Micros(now + lockFor));
      assert claimed[0].id == claimed[1].id;
    }
  }

  lemma MicrosRises(a: Time, b: Time)
    requires a <= b
    ensures Micros(a) <= Micros(b)
  {
  }

  /** Each transaction reads the clock anew. Under a clock that does not go back, a batch claim that starts with
      the foremost row of the sync claims no row twice exactly if every later transaction comes, in whole
      microseconds, before the end of the first one's lease. */
  lemma DistinctWithinFirstLease(t: JobTable, syncID: string, workerID: string, xs: seq<Transaction>, lockFor: int)
    requires Keyed(t.jobs) && forall i, k | 0 <= i < k < |xs| :: xs[i].now <= xs[k].now
    requires var claimed := L.LoopOf(t, syncID, workerID, TransactionAttempts(xs, lockFor));
      claimed != [] ==> L.Foremost(t.jobs, syncID, claimed[0].id)
    ensures var claimed := L.LoopOf(t, syncID, workerID, TransactionAttempts(xs, lockFor));
      Batch(t.jobs, claimed) <==> forall k | 1 <= k < |claimed| :: Micros(xs[k].now) < Micros(xs[0].now + lockFor)
  {
    hide L.LoopOf; hide L.Foremost; hide Micros; hide Keyed; hide Batch;
    var ws := TransactionAttempts(xs, lockFor);
    L.LoopTakesJobs(t, syncID, workerID, ws);
    forall i, k | 0 <= i < k < |ws| ensures ws[i].now <= ws[k].now && ws[i].until <= ws[k].until {
      MicrosRises(xs[i].now, xs[k].now);
      MicrosRises(xs[i].now + lockFor, xs[k].now + lockFor);
    }
    L.DistinctWithinFirstLease(t, syncID, workerID, ws);
    assert forall k | 0 <= k < |ws| :: ws[k].now == Micros(xs[k].now);
  }

  /** A row waiting to be claimed, due since the start of time. */
  function WaitingRow(): SyncJob {
    SyncJob("job", "sync", None, Manual, "", map[], "", Pending, 0, 5, None, None, 0, None, None, false,
            None, None, 0, 0)
  }

  /** A concrete input: with a lock duration of a microsecond, transactions at 0 and at 1 us claim one waiting
      row twice. */
  lemma MicrosecondLeaseIsReclaimed()
    ensures var t := JobTable(0, map["job" := WaitingRow()], map[]);
      var xs := [Transaction(false, false, 0), Transaction(false, false, MICROSECOND)];
      var claimed := L.LoopOf(t, "sync", "worker", TransactionAttempts(xs, MICROSECOND));
      |claimed| == 2 && claimed[0].id == "job" && claimed[1].id == "job"
  {
    hide NextJob; hide AfterClaim; hide BatchOf; hide AfterBatch;
    var t := JobTable(0, map["job" := WaitingRow()], map[]);
    var ws := TransactionAttempts([Transaction(false, false, 0), Transaction(false, false, MICROSECOND)], MICROSECOND);
    C.OnlyJobIsClaimed(t, "sync", "worker", 0, 1, "job");
    C.ClaimTakesOne(t, "sync", "worker", 0, 1);
    var t1 := AfterClaim(t, "sync", "worker", 0, 1);
    C.OnlyJobIsClaimed(t1, "sync", "worker", 1, 2, "job");
    TwoClaims(t, "sync", "worker", ws);
  }

  lemma TwoClaims(t: JobTable, syncID: string, workerID: string, ws: seq<L.Attempt>)
    requires Keyed(t.jobs) && |ws| == 2 && ws[0].fault.None? && ws[1].fault.None?
    requires NextJob(t, syncID, workerID, ws[0].now, ws[0].until).Some?
    requires NextJob(AfterClaim(t, syncID, workerID, ws[0].now, ws[0].until), syncID, workerID, ws[1].now,
                     ws[1].until).Some?
    ensures L.LoopOf(t, syncID, workerID, ws)
         == [NextJob(t, syncID, workerID, ws[0].now, ws[0].until).value,
             NextJob(AfterClaim(t, syncID, workerID, ws[0].now, ws[0].until), syncID, workerID, ws[1].now,
                     ws[1].until).value]
  {
    hide NextJob; hide AfterClaim; hide Keyed;
    var t1 := AfterClaim(t, syncID, workerID, ws[0].now, ws[0].until);
    var t2 := AfterClaim(t1, syncID, workerID, ws[1].now, ws[1].until);
    assert L.LoopOf(t2, syncID, workerID, ws[1..][1..]) == [];
    assert L.LoopOf(t1, syncID, workerID, ws[1..]) == [NextJob(t1, syncID, workerID, ws[1].now, ws[1].until).value];
  }

  /** At one instant, a lease of at least a microsecond makes the loop the in-memory batch claim on the
      truncated clock: the same jobs in the same order, and the same table. */
  lemma LoopIsMemoryBatch(t: JobTable, syncID: string, workerID: string, xs: seq<Transaction>, now: Time, lockFor: int)
    requires Keyed(t.jobs) && lockFor >= MICROSECOND
    requires forall i | 0 <= i < |xs| :: xs[i] == Transaction(false, false, now)
    ensures var ws := TransactionAttempts(xs, lockFor);
      && L.LoopError(t, syncID, workerID, ws) == None
      && L.AfterLoop(t, syncID, workerID, ws)
         == AfterBatch(t, syncID, workerID, |xs|, Micros(now), Micros(now + lockFor))
      && L.LoopOf(t, syncID, workerID, ws) == BatchOf(t, syncID, workerID, |xs|, Micros(now), Micros(now + lockFor))
  {
    hide AfterBatch; hide BatchOf; hide L.LoopOf; hide L.AfterLoop; hide L.LoopError; hide Micros;
    LeaseSurvivesTruncation(now, lockFor);
    L.LoopIsBatch(t, syncID, workerID, TransactionAttempts(xs, lockFor), Micros(now), Micros(now + lockFor));
  }

  function OnTruncatedClock(releases: seq<Release>): (rs: seq<Release>)
    ensures |rs| == |releases|
    ensures forall i | 0 <= i < |rs| :: rs[i] == Release(releases[i].failed, Micros(releases[i].at))
  {
    seq(|releases|, i requires 0 <= i < |releases| => Release(releases[i].failed, Micros(releases[i].at)))
  }

  /** A batch claim in which a transaction fails leaves no job leased: if the requeue of every row claimed gets
      through before the truncated end of every lease given, the claimed rows are retrying again with their
      attempts, and every other row is as before. */
  lemma FailedBatchLeavesNothing(before: JobTable, after: JobTable, syncID: string, workerID: string,
                                 xs: seq<Transaction>, lockFor: int, readAt: Time, releases: seq<Release>, e: Error,
                                 id: string)
    requires L.LoopOutcome(before, after, syncID, workerID, TransactionAttempts(xs, lockFor), readAt,
                           OnTruncatedClock(releases), Err(e))
    requires var n := |L.LoopOf(before, syncID, workerID, TransactionAttempts(xs, lockFor))|;
      && n <= |releases| && (forall k | 0 <= k < n :: !releases[k].failed)
      && (forall i, k | 0 <= i < n && 0 <= k < n :: Micros(releases[k].at) < Micros(xs[i].now + lockFor))
    ensures after.jobs.Keys == before.jobs.Keys
    ensures id in before.jobs ==>
      if InBatch(L.LoopOf(before, syncID, workerID, TransactionAttempts(xs, lockFor)), id)
      then GivenBack(before.jobs[id], after.jobs[id]) else after.jobs[id] == before.jobs[id]
  {
    hide L.AfterLoop; hide L.LoopOf; hide L.LoopError; hide ReleaseAll; hide GivenBack; hide InBatch; hide Micros;
    hide Keyed;
    var ws, rs := TransactionAttempts(xs, lockFor), OnTruncatedClock(releases);
    L.ReleasedInTime(before, syncID, workerID, ws, rs);
    if id in before.jobs {
      L.FailedLoopLeavesNothing(before, syncID, workerID, ws, Message(e), readAt, rs, id);
    }
  }

  // ----- The store -----

  /** The claimable row that comes first by due time, creation time and id. */
  predicate FirstRow(rows: map<string, SyncJob>, syncID: string, now: Time, id: string) {
    && id in rows && Claimable(rows[id], now, syncID)
    && forall other | other in rows && other != id && Claimable(rows[other], now, syncID) ::
         Before(ClaimRank(rows[id]), ClaimRank(rows[other]))
  }

  /** It is the head of the claim queue, and exists if there is anything to claim. */
  lemma FirstRowIsHead(rows: map<string, SyncJob>, syncID: string, now: Time)
    requires Keyed(rows)
    ensures forall id :: FirstRow(rows, syncID, now, id) <==>
                           ClaimQueue(rows, syncID, now) != [] && id == ClaimQueue(rows, syncID, now)[0].id
    ensures ClaimQueue(rows, syncID, now) != [] <==> exists id :: id in rows && FirstRow(rows, syncID, now, id)
  {
    hide Before; hide Claimable; hide Sorted;
    var q := ClaimQueue(rows, syncID, now);
    QueueLists(rows, syncID, now);
    forall id | FirstRow(rows, syncID, now, id) ensures q != [] && id == q[0].id {
      var i := QueuePosition(rows, syncID, now, id);
      if q[0].id != id { BeforeIsStrictTotalOrder(q[0], q[i], q[0]); }
    }
    if q != [] {
      forall other | other in rows && other != q[0].id && Claimable(rows[other], now, syncID)
        ensures Before(q[0], ClaimRank(rows[other]))
      {
        var i := QueuePosition(rows, syncID, now, other);
      }
      assert FirstRow(rows, syncID, now, q[0].id);
    }
  }

  lemma FirstRowByFields(rows: map<string, SyncJob>, syncID: string, now: Time)
    requires Keyed(rows)
    ensures forall id :: FirstRow(rows, syncID, now, id) <==>
              && id in rows && OpenTo(rows[id], syncID, now)
              && forall other | other in rows && other != id && OpenTo(rows[other], syncID, now) ::
                   DueBefore(rows[id], rows[other])
    ensures OpenIDs(rows, syncID, now) == {} <==> ClaimQueue(rows, syncID, now) == []
  {
    hide Before; hide DueBefore; hide OpenTo; hide Claimable; hide Sorted; hide OpenIDs; hide Lists;
    OpenAreRanked(rows, syncID, now);
    forall id | id in rows ensures Claimable(rows[id], now, syncID) <==> OpenTo(rows[id], syncID, now) {
      ClaimableIsOpen(rows[id], syncID, now);
    }
    forall a, b | a in rows && b in rows
      ensures Before(ClaimRank(rows[a]), ClaimRank(rows[b])) <==> DueBefore(rows[a], rows[b])
    {
      ClaimRankIsDueOrder(rows[a], rows[b]);
    }
  }

  class SqliteJobStore {
    var rows: map<string, SyncJob>

    ghost function Table(): JobTable
      reads this
    {
      JobTable(0, rows, map[])
    }

    ghost predicate Valid()
      reads this
    {
      Keyed(rows)
    }

    constructor ()
      ensures Valid() && rows == map[]
    {
      rows := map[];
    }

    /** The conditional update inside a transaction, and the number of rows it affects. */
    static method ClaimCandidate(tx: map<string, SyncJob>, syncID: string, id: string, workerID: string, now: Time,
                                 until: Time)
      returns (tx': map<string, SyncJob>, affected: nat)
      ensures affected == if id in tx && Claimable(tx[id], now, syncID) then 1 else 0
      ensures tx' == if affected > 0 then Lease(tx, id, workerID, now, until) else tx
      ensures affected == if id in tx && OpenTo(tx[id], syncID, now) then 1 else 0
      ensures affected > 0 ==>
                tx' == tx[id := tx[id].(state := Processing, lockedBy := Some(workerID), lockedUntil := Some(until),
                                        updatedAt := now)]
    {
      if id in tx && Claimable(tx[id], now, syncID) {
        return tx[id := Claimed(tx[id], workerID, now, until)], 1;
      }
      return tx, 0;
    }

    /** The row a claim transaction selects. */
    static method SelectCandidate(tx: map<string, SyncJob>, syncID: string, now: Time) returns (id: Option<string>)
      requires Keyed(tx)
      ensures id == if ClaimQueue(tx, syncID, now) == [] then None else Some(ClaimQueue(tx, syncID, now)[0].id)
      ensures match id
        case None => OpenIDs(tx, syncID, now) == {}
        case Some(first) =>
          && first in tx && OpenTo(tx[first], syncID, now)
          && forall other | other in tx && other != first && OpenTo(tx[other], syncID, now) ::
               DueBefore(tx[first], tx[other])
    {
      hide FirstRow; hide ClaimQueue; hide OpenTo; hide DueBefore;
      FirstRowByFields(tx, syncID, now);
      FirstRowIsHead(tx, syncID, now);
      if candidate :| candidate in tx && FirstRow(tx, syncID, now, candidate) {
        return Some(candidate);
      }
      return None;
    }

    /** One transaction: select the candidate, claim it, read it back, commit. If anything fails it is rolled
        back and the rows stay as they were. */
    method ClaimNext(x: Transaction, syncID: string, workerID: string,
                     lockFor: int) returns (r: Result<Option<SyncJob>>)
      requires Valid()
      modifies this
      ensures Valid()
      ensures x.cancelled || lockFor <= 0 || x.fails ==>
                && rows == old(rows)
                && r == Err(if x.cancelled then ContextDone else if lockFor <= 0 then InvalidLockFor else StorageFault)
      ensures !x.cancelled && lockFor > 0 && !x.fails ==>
                && Table() == AfterClaim(old(Table()), syncID, workerID, Micros(x.now), Micros(x.now + lockFor))
                && r == Ok(NextJob(old(Table()), syncID, workerID, Micros(x.now), Micros(x.now + lockFor)))
      ensures !x.cancelled && lockFor > 0 && !x.fails ==>
                && r.Ok?
                && FirstIsLeased(old(rows), rows, r.value, syncID, workerID, Micros(x.now), Micros(x.now + lockFor))
    {
      hide FirstIsLeased; hide OpenTo; hide DueBefore; hide OpenIDs; hide Before; hide Sorted; hide Claimable;
      if x.cancelled { return Err(ContextDone); }
      if lockFor <= 0 { return Err(InvalidLockFor); }
      var now, until := Micros(x.now), Micros(x.now + lockFor);
      ClaimByFields(Table(), syncID, workerID, now, until);
      var tx := rows;
      var candidate := SelectCandidate(tx, syncID, now);
      if candidate.None? {
        if x.fails { return Err(StorageFault); }
        return Ok(None);
      }
      QueueLists(tx, syncID, now);
      var affected: nat;
      tx, affected := ClaimCandidate(tx, syncID, candidate.value, workerID, now, until);
      if x.fails { return Err(StorageFault); }
      rows := tx;
      return Ok(Some(tx[candidate.value]));
    }

    /** `RequeueClaimed`: an update of the row if it is processing, locked by the worker, and its lock alive. */
    method RequeueClaimed(fails: bool, jobID: string, workerID: string, reason: string, nextRunAt: Time, now: Time)
      returns (err: Option<Error>)
      requires Valid()
      modifies this
      ensures Valid()
      ensures fails ==> rows == old(rows) && err == Some(StorageFault)
      ensures !fails ==>
                && var u := Jobs.RequeueClaimed(reason, Micros(nextRunAt));
                   && Table() == AfterUpdate(old(Table()), jobID, workerID, u, Micros(now))
                   && err == UpdateError(old(Table()), jobID, workerID, u, Micros(now))
      ensures !fails ==>
                err == if jobID !in old(rows) then Some(JobNotFound)
                       else if !Owns(old(rows)[jobID], workerID, Micros(now)) then Some(JobLeaseNotOwned)
                       else None
      ensures rows == if err.Some? then old(rows)
                      else old(rows)[jobID := old(rows)[jobID].(state := Retrying, lastError := Some(reason),
                             availableAt := Micros(nextRunAt), lockedBy := None, lockedUntil := None,
                             updatedAt := Micros(now))]
    {
      if fails { return Some(StorageFault); }
      if jobID in rows && LeaseOwned(rows[jobID], Micros(now), workerID) {
        rows := rows[jobID := Updated(rows[jobID], Jobs.RequeueClaimed(reason, Micros(nextRunAt)), Micros(now))];
        return None;
      }
      if jobID !in rows { return Some(JobNotFound); }
      return Some(JobLeaseNotOwned);
    }

    /** The compensation: whatever was claimed is requeued, and the answers are ignored. */
    method RequeueClaimedBatch(workerID: string, batch: seq<SyncJob>, reason: Error, readAt: Time,
                               releases: seq<Release>)
      requires Valid() && KnownJobs(rows, batch) && |batch| <= |releases|
      modifies this
      ensures Valid()
      ensures rows == ReleaseAll(old(rows), workerID, batch, Message(reason),
                                 Micros(readAt), OnTruncatedClock(releases))
    {
      hide Keyed; hide LeaseOwned; hide Message; hide Updated; hide Micros;
      ghost var rs := OnTruncatedClock(releases);
      for i := 0 to |batch|
        invariant Valid() && KnownJobs(rows, batch[i..])
        invariant ReleaseAll(rows, workerID, batch[i..], Message(reason), Micros(readAt), rs[i..])
               == ReleaseAll(old(rows), workerID, batch, Message(reason), Micros(readAt), rs)
      {
        assert batch[i..][0] == batch[i] && batch[i..][1..] == batch[i + 1..] && rs[i..][1..] == rs[i + 1..];
        ghost var before := rows;
        var _ := RequeueClaimed(releases[i].failed, batch[i].id, workerID, Message(reason), readAt, releases[i].at);
        assert before[batch[i].id := before[batch[i].id]] == before;
        assert rows == before[batch[i].id :=
            ReleasedJob(before[batch[i].id], workerID, Message(reason), Micros(readAt), rs[i])];
      }
    }

    /** `ClaimNextBatch`: one transaction a job; when one fails, the jobs of the earlier ones are given back. */
    method ClaimNextBatch(cancelled: bool, syncID: string, workerID: string, limit: int, lockFor: int,
                          xs: seq<Transaction>, readAt: Time, releases: seq<Release>)
      returns (r: Result<seq<SyncJob>>)
      requires Valid() && limit <= |xs| <= |releases|
      modifies this
      ensures Valid()
      ensures cancelled || lockFor <= 0 ==>
                rows == old(rows) && r == Err(if cancelled then ContextDone else InvalidLockFor)
      ensures !cancelled && lockFor > 0 && limit <= 0 ==> rows == old(rows) && r == Ok([])
      ensures !cancelled && lockFor > 0 && limit > 0 ==>
                L.LoopOutcome(old(Table()), Table(), syncID, workerID, TransactionAttempts(xs[..limit], lockFor),
                              Micros(readAt), OnTruncatedClock(releases), r)
    {
      hide Keyed; hide Message; hide L.Running; hide KnownJobs; hide ReleaseAll; hide L.Ends; hide L.LoopOutcome;
      hide ClaimQueue; hide Claimed; hide Micros;
      if cancelled { return Err(ContextDone); }
      if lockFor <= 0 { return Err(InvalidLockFor); }
      if limit <= 0 { return Ok([]); }
      ghost var before, ws, rs := Table(), TransactionAttempts(xs[..limit], lockFor), OnTruncatedClock(releases);
      L.LoopStarts(before, syncID, workerID, ws);
      var jobs := [];
      for i := 0 to limit
        invariant Valid() && L.Running(before, Table(), syncID, workerID, ws, i, jobs)
      {
        ghost var now := Table();
        L.RunningIsKeyed(before, now, syncID, workerID, ws, i, jobs);
        var claimed := ClaimNext(xs[i], syncID, workerID, lockFor);
        if claimed.Err? {
          RequeueClaimedBatch(workerID, jobs, claimed.error, readAt, releases);
          L.LoopFails(before, now, Table(), syncID, workerID, ws, i, jobs, Micros(readAt), rs);
          return Err(claimed.error);
        }
        if claimed.value.None? {
          L.LoopSucceeds(before, now, syncID, workerID, ws, i, jobs, Micros(readAt), rs);
          return Ok(jobs);
        }
        L.LoopGoesOn(before, now, syncID, workerID, ws, i, jobs, claimed.value.value);
        jobs := jobs + [claimed.value.value];
      }
      L.LoopSucceeds(before, Table(), syncID, workerID, ws, limit, jobs, Micros(readAt), rs);
      return Ok(jobs);
    }
  }
}
