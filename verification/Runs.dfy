/** Whole runs of the two stores: any callers, any order, each call atomic under the stores' mutexes. */
module Runs {
  import opened Types
  import opened Names
  import opened Jobs
  import opened Dispatch
  import C = Claims
  import D = Deltas

  /** The calls that can change a store. */
  datatype Call =
    | Enqueue(delta: Delta)
    | EnqueueBatch(deltas: seq<Delta>)
    | MarkDispatched(deltaID: string)
    | DispatchPending(syncID: string, limit: int)
    | Create(job: SyncJob)
    | Claim(workerID: string, syncID: string, limit: int, lockFor: int)
    | Update(workerID: string, jobID: string, update: LeaseUpdate)
    | Operate(jobID: string, op: OperatorAction)

  datatype Entry = Entry(at: Time, call: Call)

  ghost function AfterMark(t: D.DeltaTable, deltaID: string, now: Time): D.DeltaTable {
    if deltaID in t.deltas && !t.deltas[deltaID].state.DeltaDispatched?
    then t.(deltas := t.deltas[deltaID := D.Dispatched(t.deltas[deltaID], now)]) else t
  }

  ghost function Do(s: Stores, c: Call, now: Time): Stores
    requires StoresValid(s)
  {
    match c
    case Enqueue(delta) => s.(deltas := D.AfterEnqueue(s.deltas, delta, now))
    case EnqueueBatch(deltas) =>
      if D.Accepted(s.deltas, deltas) then s.(deltas := D.AfterBatch(s.deltas, deltas, now)) else s
    case MarkDispatched(deltaID) => s.(deltas := AfterMark(s.deltas, deltaID, now))
    case DispatchPending(syncID, limit) => AfterDispatch(s, syncID, limit, now)
    case Create(job) => s.(jobs := AfterCreate(s.jobs, job, now))
    case Claim(workerID, syncID, limit, lockFor) =>
      if lockFor <= 0 || limit <= 0 then s
      else s.(jobs := AfterBatch(s.jobs, syncID, workerID, limit, now, now + lockFor))
    case Update(workerID, jobID, update) => s.(jobs := AfterUpdate(s.jobs, jobID, workerID, update, now))
    case Operate(jobID, op) => s.(jobs := AfterOperator(s.jobs, jobID, op, now))
  }

  /** Every call keeps both tables well formed: ids fresh, `dedup` and `jobByDelta` in agreement with a scan. */
  lemma DoKeeps(s: Stores, c: Call, now: Time)
    requires StoresValid(s)
    ensures StoresValid(Do(s, c, now))
  {
    hide D.DeltasValid; hide JobsValid; hide AfterBatch; hide AfterUpdate; hide AfterOperator; hide AfterCreate;
    hide D.AfterBatch; hide D.AfterEnqueue; hide DispatchAll; hide Selection;
    match c
    case Enqueue(delta) => D.EnqueueKeeps(s.deltas, delta, now);
    case EnqueueBatch(deltas) =>
      if D.Accepted(s.deltas, deltas) { D.BatchIsSingles(s.deltas, deltas, now); }
    case MarkDispatched(deltaID) =>
      if deltaID in s.deltas.deltas { MarkKeeps(s.deltas, deltaID, now); }
    case DispatchPending(syncID, limit) => DispatchAllKeeps(s, Selection(s, syncID, limit), now);
    case Create(job) => CreateKeeps(s.jobs, job, now);
    case Claim(workerID, syncID, limit, lockFor) =>
      if lockFor > 0 && limit > 0 { BatchKeeps(s.jobs, syncID, workerID, limit, now, now + lockFor); }
    case Update(workerID, jobID, update) => UpdateKeeps(s.jobs, jobID, workerID, update, now);
    case Operate(jobID, op) => OperatorKeeps(s.jobs, jobID, op, now);
  }

  ghost function After(s: Stores, run: seq<Entry>): (s': Stores)
    requires StoresValid(s)
    ensures StoresValid(s')
    decreases |run|
  {
    if run == [] then s
    else
      DoKeeps(s, run[0].call, run[0].at);
      After(Do(s, run[0].call, run[0].at), run[1..])
  }

  // ----- What one call can do to one job -----

  /** The only ways a stored job changes: a claim when it is ready, its owner while the lease is live, an
      operator once the lease has lapsed. */
  ghost predicate Change(c: Call, id: string, j: SyncJob, j': SyncJob, now: Time) {
    || j' == j
    || (c.Claim? && c.lockFor > 0 && Claimable(j, now, c.syncID) && j' == Claimed(j, c.workerID, now, now + c.lockFor))
    || (c.Update? && c.jobID == id && LeaseOwned(j, now, c.workerID) && j' == Updated(j, c.update, now))
    || (c.Operate? && c.jobID == id && LeaseExpired(j, now) && j' == Operated(j, c.op, now))
  }

  lemma {:induction false} EveryChange(s: Stores, c: Call, now: Time, id: string)
    requires StoresValid(s) && id in s.jobs.jobs
    ensures id in Do(s, c, now).jobs.jobs
    ensures Change(c, id, s.jobs.jobs[id], Do(s, c, now).jobs.jobs[id], now)
  {
    hide AfterBatch; hide BatchOf; hide DispatchAll; hide Selection; hide D.AfterBatch; hide D.AfterEnqueue;
    hide D.Accepted; hide Claimable; hide Claimed; hide Updated; hide Operated; hide LeaseOwned; hide LeaseExpired;
    hide TrimSpace; hide D.DeltasValid; hide Mapped; hide FreshAbove; hide FirstFree; hide Normalised; hide AfterMark;
    match c
    case DispatchPending(syncID, limit) => DispatchAllCreates(s, Selection(s, syncID, limit), now);
    case Create(job) => CreateKeeps(s.jobs, job, now);
    case Claim(workerID, syncID, limit, lockFor) =>
      if lockFor > 0 && limit > 0 { ClaimChange(s.jobs, syncID, workerID, limit, now, now + lockFor, id); }
    case Update(_, _, _) =>
    case Operate(_, _) =>
    case Enqueue(_) =>
    case EnqueueBatch(_) =>
    case MarkDispatched(_) =>
  }

  lemma ClaimChange(t: JobTable, syncID: string, workerID: string, limit: nat, now: Time, until: Time, id: string)
    requires JobsValid(t) && id in t.jobs
    ensures id in AfterBatch(t, syncID, workerID, limit, now, until).jobs
    ensures AfterBatch(t, syncID, workerID, limit, now, until).jobs[id]
         == if InBatch(BatchOf(t, syncID, workerID, limit, now, until), id)
            then Claimed(t.jobs[id], workerID, now, until) else t.jobs[id]
    ensures InBatch(BatchOf(t, syncID, workerID, limit, now, until), id) ==> Claimable(t.jobs[id], now, syncID)
  {
    hide Claimable; hide BatchOf; hide AfterBatch;
    C.BatchIsLeased(t, syncID, workerID, limit, now, until);
    if !InBatch(BatchOf(t, syncID, workerID, limit, now, until), id) {
      C.BatchTakesLeast(t, syncID, workerID, limit, now, until, id);
    }
  }

  // ----- Lease exclusivity over runs -----

  /** The job is leased to the worker; `LeaseEnd` is the end of the lease in force. */
  ghost predicate Held(s: Stores, id: string, workerID: string) {
    && id in s.jobs.jobs && s.jobs.jobs[id].state.Processing?
    && s.jobs.jobs[id].lockedBy == Some(workerID) && s.jobs.jobs[id].lockedUntil.Some?
  }

  ghost function LeaseEnd(s: Stores, id: string): Time
    requires id in s.jobs.jobs && s.jobs.jobs[id].lockedUntil.Some?
  {
    s.jobs.jobs[id].lockedUntil.value
  }

  /** The owner gives its lease up: it finalises the job or requeues it. A renewal does not. */
  predicate OwnerEnds(c: Call, id: string, workerID: string) {
    c.Update? && c.jobID == id && c.workerID == workerID && !c.update.RenewLease?
  }

  /** While a lease is live, everybody but its owner is refused: another worker's mutators, the operator
      actions, and every claim, whoever makes it. */
  lemma OthersAreRefused(s: Stores, id: string, workerID: string, now: Time)
    requires StoresValid(s) && Held(s, id, workerID) && now < LeaseEnd(s, id)
    ensures forall other, u: LeaseUpdate | other != workerID :: UpdateError(s.jobs, id, other, u, now).Some?
    ensures forall op: OperatorAction :: OperatorError(s.jobs, id, op, now).Some?
    ensures forall syncID: string :: !Claimable(s.jobs.jobs[id], now, syncID)
  {
    hide StoresValid; hide TrimSpace;
  }

  /** One call, made while the lease lives, that is not its owner's finalise or requeue. */
  lemma {:induction false} LeaseStep(s: Stores, c: Call, now: Time, id: string, workerID: string)
    requires StoresValid(s) && Held(s, id, workerID) && now < LeaseEnd(s, id) && !OwnerEnds(c, id, workerID)
    ensures Held(Do(s, c, now), id, workerID)
    ensures var j, j' := s.jobs.jobs[id], Do(s, c, now).jobs.jobs[id];
      j' == j.(lockedUntil := j'.lockedUntil, updatedAt := j'.updatedAt)
  {
    hide StoresValid; hide Do; hide Operated;
    EveryChange(s, c, now, id);
  }

  /** Every call of the run comes before the end of the lease in force when it is made, and none is the
      owner's finalise or requeue. */
  ghost predicate WithinLease(s: Stores, run: seq<Entry>, id: string, workerID: string)
    requires StoresValid(s)
    decreases |run|
  {
    run == []
    || (Held(s, id, workerID) && run[0].at < LeaseEnd(s, id) && !OwnerEnds(run[0].call, id, workerID)
        && (DoKeeps(s, run[0].call, run[0].at); WithinLease(Do(s, run[0].call, run[0].at), run[1..], id, workerID)))
  }

  /** Over any run within a lease, renewals included, the job stays its owner's and changes in nothing but
      the extent of its lease and its update time. */
  lemma {:induction false} LeaseIsExclusive(s: Stores, run: seq<Entry>, id: string, workerID: string)
    requires StoresValid(s) && Held(s, id, workerID) && WithinLease(s, run, id, workerID)
    ensures Held(After(s, run), id, workerID)
    ensures var j, j' := s.jobs.jobs[id], After(s, run).jobs.jobs[id];
      j' == j.(lockedUntil := j'.lockedUntil, updatedAt := j'.updatedAt)
    decreases |run|
  {
    hide StoresValid; hide Do;
    if run != [] {
      DoKeeps(s, run[0].call, run[0].at);
      LeaseStep(s, run[0].call, run[0].at, id, workerID);
      LeaseIsExclusive(Do(s, run[0].call, run[0].at), run[1..], id, workerID);
    }
  }

  /** When a worker's ownership ends: with the first call that comes no earlier than the end of the lease in force,
      at that end; with its own finalise or requeue before that, at once; else at the end of the lease in force at
      the end of the run. Renewals move that end, in either direction. A finalise or requeue that comes too late, and
      that the store therefore refuses, ends nothing. */
  ghost function OwnershipEnd(s: Stores, run: seq<Entry>, id: string, workerID: string): Time
    requires StoresValid(s) && Held(s, id, workerID)
    decreases |run|
  {
    if run == [] || run[0].at >= LeaseEnd(s, id) then LeaseEnd(s, id)
    else if OwnerEnds(run[0].call, id, workerID) then run[0].at
    else
      DoKeeps(s, run[0].call, run[0].at);
      LeaseStep(s, run[0].call, run[0].at, id, workerID);
      OwnershipEnd(Do(s, run[0].call, run[0].at), run[1..], id, workerID)
  }

  /** The owner gives its lease up while it is live. */
  ghost predicate GivesUp(s: Stores, run: seq<Entry>, id: string, workerID: string)
    requires StoresValid(s) && Held(s, id, workerID)
    decreases |run|
  {
    && run != [] && run[0].at < LeaseEnd(s, id)
    && (OwnerEnds(run[0].call, id, workerID)
        || (DoKeeps(s, run[0].call, run[0].at); LeaseStep(s, run[0].call, run[0].at, id, workerID);
            GivesUp(Do(s, run[0].call, run[0].at), run[1..], id, workerID)))
  }

  /** Ownership lasts up to entry k of the run, or to the end of the run: till then the lease is in force at every
      call. Then the lease is over, or the owner gives it up. */
  lemma {:induction false} OwnershipLasts(s: Stores, run: seq<Entry>, id: string, workerID: string) returns (k: nat)
    requires StoresValid(s) && Held(s, id, workerID)
    ensures k <= |run| && WithinLease(s, run[..k], id, workerID) && Held(After(s, run[..k]), id, workerID)
    ensures var end, until := OwnershipEnd(s, run, id, workerID), LeaseEnd(After(s, run[..k]), id);
      && (!GivesUp(s, run, id, workerID) ==> end == until && (k < |run| ==> run[k].at >= end))
      && (GivesUp(s, run, id, workerID) ==>
            k < |run| && OwnerEnds(run[k].call, id, workerID) && end == run[k].at < until)
    decreases |run|
  {
    hide StoresValid; hide Do;
    if run == [] || run[0].at >= LeaseEnd(s, id) || OwnerEnds(run[0].call, id, workerID) {
      k := 0;
    } else {
      DoKeeps(s, run[0].call, run[0].at);
      LeaseStep(s, run[0].call, run[0].at, id, workerID);
      var n := OwnershipLasts(Do(s, run[0].call, run[0].at), run[1..], id, workerID);
      k := n + 1;
      assert run[..k][1..] == run[1..][..n] && run[..k][0] == run[0];
    }
  }

  /** A renewal gives the lease from now on the length it asks for. */
  lemma RenewalIsInForce(s: Stores, id: string, workerID: string, lockFor: int, now: Time)
    requires StoresValid(s) && Held(s, id, workerID) && now < LeaseEnd(s, id) && lockFor > 0
    ensures var s' := Do(s, Update(workerID, id, RenewLease(lockFor)), now);
      Held(s', id, workerID) && LeaseEnd(s', id) == now + lockFor
  {
    hide StoresValid;
  }

  ghost predicate Takes(s: Stores, e: Entry, id: string)
    requires StoresValid(s)
  {
    && e.call.Claim? && e.call.lockFor > 0 && e.call.limit > 0
    && InBatch(BatchOf(s.jobs, e.call.syncID, e.call.workerID, e.call.limit, e.at, e.at + e.call.lockFor), id)
  }

  lemma {:induction false} TakingHolds(s: Stores, e: Entry, s': Stores, id: string)
    requires StoresValid(s) && Takes(s, e, id) && s' == Do(s, e.call, e.at)
    ensures id in s.jobs.jobs && Claimable(s.jobs.jobs[id], e.at, e.call.syncID)
    ensures Held(s', id, e.call.workerID) && LeaseEnd(s', id) == e.at + e.call.lockFor
  {
    hide BatchOf; hide Claimable; hide AfterBatch; hide D.DeltasValid; hide Mapped; hide FreshAbove;
    var c := e.call;
    C.BatchIsLeased(s.jobs, c.syncID, c.workerID, c.limit, e.at, e.at + c.lockFor);
    ClaimChange(s.jobs, c.syncID, c.workerID, c.limit, e.at, e.at + c.lockFor, id);
  }

  /** Ownership intervals are disjoint: of two successful claims of a job under a non-decreasing clock, the second
      comes no earlier than the end of the first owner's ownership, whatever calls come in between, however often
      and however far that owner renewed its lease. */
  lemma {:induction false} ClaimsDoNotOverlap(
      s: Stores, first: Entry, s1: Stores, between: seq<Entry>, s2: Stores, second: Entry, id: string)
    requires StoresValid(s) && Takes(s, first, id)
    requires s1 == Do(s, first.call, first.at) && StoresValid(s1) && s2 == After(s1, between)
    requires Takes(s2, second, id)
    requires forall i | 0 <= i < |between| :: between[i].at <= second.at
    ensures Held(s1, id, first.call.workerID) && LeaseEnd(s1, id) == first.at + first.call.lockFor
    ensures second.at >= OwnershipEnd(s1, between, id, first.call.workerID)
  {
    hide Do; hide StoresValid; hide BatchOf; hide WithinLease; hide GivesUp; hide OwnershipEnd;
    TakingHolds(s, first, s1, id);
    TakingHolds(s2, second, Do(s2, second.call, second.at), id);
    var k := OwnershipLasts(s1, between, id, first.call.workerID);
    if k == |between| { assert between[..k] == between; }
  }

  /** If no renewal asks for less than the lease has, ownership lasts at least that long, unless the owner gives the
      lease up. */
  lemma {:induction false} RenewalsOnlyExtend(s: Stores, run: seq<Entry>, id: string, workerID: string, end: Time)
    requires StoresValid(s) && Held(s, id, workerID) && LeaseEnd(s, id) >= end
    requires forall i | 0 <= i < |run| && run[i].call.Update? && run[i].call.update.RenewLease? ::
               run[i].at + run[i].call.update.lockFor >= end
    ensures OwnershipEnd(s, run, id, workerID) >= end || GivesUp(s, run, id, workerID)
    decreases |run|
  {
    hide StoresValid; hide Do;
    if run != [] && run[0].at < LeaseEnd(s, id) && !OwnerEnds(run[0].call, id, workerID) {
      DoKeeps(s, run[0].call, run[0].at);
      LeaseStep(s, run[0].call, run[0].at, id, workerID);
      LeaseMovesTo(s, run[0].call, run[0].at, id, workerID);
      RenewalsOnlyExtend(Do(s, run[0].call, run[0].at), run[1..], id, workerID, end);
    }
  }

  /** Within a lease nothing but a renewal moves its end. */
  lemma {:induction false} LeaseMovesTo(s: Stores, c: Call, now: Time, id: string, workerID: string)
    requires StoresValid(s) && Held(s, id, workerID) && now < LeaseEnd(s, id) && !OwnerEnds(c, id, workerID)
    ensures var s' := Do(s, c, now);
      && Held(s', id, workerID)
      && (LeaseEnd(s', id) == LeaseEnd(s, id)
          || (c.Update? && c.update.RenewLease? && LeaseEnd(s', id) == now + c.update.lockFor))
  {
    hide StoresValid; hide Do; hide Operated;
    EveryChange(s, c, now, id);
  }

  // ----- What no run ever changes -----

  /** A synced or dead job never changes again in any field. */
  lemma {:induction false} TerminalIsFrozen(s: Stores, run: seq<Entry>, id: string)
    requires StoresValid(s) && id in s.jobs.jobs && Terminal(s.jobs.jobs[id])
    ensures id in After(s, run).jobs.jobs && After(s, run).jobs.jobs[id] == s.jobs.jobs[id]
    decreases |run|
  {
    hide StoresValid;
    if run != [] {
      DoKeeps(s, run[0].call, run[0].at);
      EveryChange(s, run[0].call, run[0].at, id);
      TerminalIsFrozen(Do(s, run[0].call, run[0].at), run[1..], id);
    }
  }

  lemma ChangeKeepsIdentity(c: Call, id: string, j: SyncJob, j': SyncJob, now: Time)
    requires Change(c, id, j, j', now)
    ensures SameIdentity(j, j') && j.attemptCount <= j'.attemptCount <= j.attemptCount + 1
  {
    hide Updated; hide Operated; hide Claimable; hide LeaseOwned; hide LeaseExpired;
    if c.Update? { UpdateKeepsIdentity(j, c.update, now); }
    if c.Operate? { OperatedKeepsIdentity(j, c.op, now); }
  }

  /** No job ever disappears or changes its identity, and its attempt count never goes down. */
  lemma {:induction false} JobsPersist(s: Stores, run: seq<Entry>, id: string)
    requires StoresValid(s) && id in s.jobs.jobs
    ensures id in After(s, run).jobs.jobs && SameIdentity(s.jobs.jobs[id], After(s, run).jobs.jobs[id])
    ensures s.jobs.jobs[id].attemptCount <= After(s, run).jobs.jobs[id].attemptCount
    decreases |run|
  {
    hide StoresValid; hide Change;
    if run != [] {
      var s1 := Do(s, run[0].call, run[0].at);
      DoKeeps(s, run[0].call, run[0].at);
      EveryChange(s, run[0].call, run[0].at, id);
      ChangeKeepsIdentity(run[0].call, id, s.jobs.jobs[id], s1.jobs.jobs[id], run[0].at);
      JobsPersist(s1, run[1..], id);
    }
  }

  /** In every state any run of calls reaches from empty stores, a delta has at most one outbox job, a
      dedup key at most one delta, and the next ids of both stores are free. */
  lemma {:induction false} ReachableStoresAgree(config: D.DeltaConfig, run: seq<Entry>)
    ensures StoresValid(Stores(D.DeltaTable(config, 0, map[], map[]), JobTable(0, map[], map[])))
    ensures var s := After(Stores(D.DeltaTable(config, 0, map[], map[]), JobTable(0, map[], map[])), run);
      && (forall a, b | a in s.jobs.jobs && b in s.jobs.jobs
                        && s.jobs.jobs[a].origin.Outbox? && s.jobs.jobs[b].origin.Outbox?
                        && s.jobs.jobs[a].deltaID == s.jobs.jobs[b].deltaID :: a == b)
      && (forall a, b | a in s.deltas.deltas && b in s.deltas.deltas
                        && s.deltas.deltas[a].dedupKey == s.deltas.deltas[b].dedupKey != NoKey :: a == b)
      && (forall n: nat | n > s.deltas.nextID :: Name(D.DELTA, n) !in s.deltas.deltas)
      && (forall n: nat | n > s.jobs.nextID :: Name(JOB, n) !in s.jobs.jobs)
  {
  }
}
