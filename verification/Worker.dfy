/** The worker's loops over a store it has to itself: claiming a batch, draining it job by job, releasing
    what is left. What the outside decides (cancellation, clocks, failures of the application, heartbeats,
    timeouts) is an input. `WorkerRuns.dfy` shows that draining is a run of the protocol. */
module Worker {
  import opened Types
  import opened Names
  import opened Jobs
  import opened JobFields
  import opened JobStore
  import opened Dispatch
  import opened DispatchStore
  import opened Protocol
  import L = ClaimLoops
  import opened Releases
  import D = Deltas
  import F = DeltaFields
  import M = DispatchFields

  // ----- Configuration -----

  datatype WorkerConfig = WorkerConfig(
    syncID: string,
    workerID: string,
    lockFor: int,
    pullSize: int,
    batchSize: int,
    concurrency: int)

  predicate ConfigValid(c: WorkerConfig) {
    c.syncID != "" && c.workerID != "" && c.lockFor > 0
  }

  function EffectiveBatchSize(c: WorkerConfig): int {
    if c.batchSize <= 0 then 1 else c.batchSize
  }

  function EffectiveConcurrency(c: WorkerConfig): int {
    if c.concurrency <= 0 then 1 else c.concurrency
  }

  function EffectivePullSize(c: WorkerConfig): int {
    if c.pullSize > 0 then c.pullSize else EffectiveConcurrency(c) * EffectiveBatchSize(c)
  }

  /** A configured pull size counts; unless one is set, one cycle pulls what its routines can claim, and at least
      one delta. */
  lemma PullFeedsTheRoutines(c: WorkerConfig)
    ensures c.pullSize > 0 ==> EffectivePullSize(c) == c.pullSize
    ensures c.pullSize <= 0 ==>
              EffectivePullSize(c)
              == (if c.concurrency > 0 then c.concurrency else 1) * (if c.batchSize > 0 then c.batchSize else 1)
    ensures EffectivePullSize(c) >= 1
    ensures c.pullSize <= 0 ==>
              EffectivePullSize(c) >= EffectiveConcurrency(c) && EffectivePullSize(c) >= EffectiveBatchSize(c)
  {
    AtLeastBoth(EffectiveConcurrency(c), EffectiveBatchSize(c));
  }

  lemma {:induction false} AtLeastBoth(n: int, b: int)
    requires n >= 1 && b >= 1
    ensures n * b >= n && n * b >= b
  {
    if n > 1 {
      AtLeastBoth(n - 1, b);
      assert n * b == (n - 1) * b + b;
    }
  }

  const ROUTINE: string := "-r"

  function WorkerIDForRoutine(base: string, routine: int): string {
    if routine <= 0 then base else base + ROUTINE + Decimal(routine)
  }

  predicate IsDigit(c: char) {
    '0' <= c <= '9'
  }

  lemma {:induction false} DecimalIsDigits(n: nat)
    ensures forall i | 0 <= i < |Decimal(n)| :: IsDigit(Decimal(n)[i])
  {
    if n >= 10 { DecimalIsDigits(n / 10); }
  }

  /** The last hyphen of a routine's name is where its number starts, so names can be read back. */
  lemma {:induction false} SuffixIsUnique(a: string, m: nat, b: string, n: nat)
    requires a + ROUTINE + Decimal(m) == b + ROUTINE + Decimal(n)
    ensures a == b && m == n
  {
    DecimalIsDigits(m);
    DecimalIsDigits(n);
    hide Decimal;
    var s, d, e := a + ROUTINE + Decimal(m), Decimal(m), Decimal(n);
    assert forall i | |a| + 2 <= i < |s| :: s[i] == d[i - |a| - 2];
    assert forall i | |b| + 2 <= i < |s| :: s[i] == e[i - |b| - 2];
    assert s[|a| + 1] == 'r' && s[|b| + 1] == 'r';
    assert s[..|a|] == a && s[..|b|] == b && s[|a| + 2..] == d && s[|b| + 2..] == e;
    DecimalInjective(m, n);
  }

  /** Two routines share an id exactly if they are the same routine of the same base, or one base spells
      out a routine of the other: bases "a" and "a-r1" must not be used together. */
  lemma RoutineIDsIdentify(a: string, i: nat, b: string, k: nat)
    ensures WorkerIDForRoutine(a, i) == if i == 0 then a else a + "-r" + Decimal(i)
    ensures WorkerIDForRoutine(a, i) == WorkerIDForRoutine(b, k) <==>
              || (a == b && i == k)
              || (i == 0 < k && a == WorkerIDForRoutine(b, k))
              || (k == 0 < i && b == WorkerIDForRoutine(a, i))
  {
    if i > 0 && k > 0 {
      if WorkerIDForRoutine(a, i) == WorkerIDForRoutine(b, k) { SuffixIsUnique(a, i, b, k); }
    } else if i == 0 && k == 0 {
    } else if a == b {
      assert |WorkerIDForRoutine(a, i)| != |WorkerIDForRoutine(b, k)|;
    }
  }

  // ----- Inputs of one drain -----

  /** One attempt of the heartbeat to renew the lease. */
  datatype Beat = Beat(cancelled: bool, at: Time)

  /** What happens around one job: whether the context is done before it starts, whether the projector
      fails, the heartbeats before and after the routine looks for a heartbeat error, the applier's answer
      (`effect`: it failed but had written), the worker's clock, and the finalising call's timeout and
      clock. */
  datatype Round = Round(
    cancelled: bool,
    broken: bool,
    ok: bool,
    effect: bool,
    early: seq<Beat>,
    error: string,
    readAt: Time,
    late: seq<Beat>,
    timedOut: bool,
    at: Time)

  datatype Holder = Holder(workerID: string, lockFor: int)

  // ----- One job through one round -----

  predicate BeatWorks(j: SyncJob, h: Holder, b: Beat) {
    !b.cancelled && LeaseOwned(j, b.at, h.workerID)
  }

  /** The heartbeat renews until it fails once. */
  function RenewedJob(j: SyncJob, h: Holder, beats: seq<Beat>): SyncJob
    decreases |beats|
  {
    if beats == [] || !BeatWorks(j, h, beats[0]) then j
    else RenewedJob(Updated(j, RenewLease(h.lockFor), beats[0].at), h, beats[1..])
  }

  predicate BeatsWork(j: SyncJob, h: Holder, beats: seq<Beat>)
    decreases |beats|
  {
    beats == []
    || (BeatWorks(j, h, beats[0]) && BeatsWork(Updated(j, RenewLease(h.lockFor), beats[0].at), h, beats[1..]))
  }

  function FetchOf(source: map<string, Document>, snapshot: SyncJob, r: Round): Fetched {
    if r.broken then Broken else ProjectFrom(source, snapshot.projectionType, snapshot.projectionKey)
  }

  /** What the routine knows when it looks for a heartbeat error. */
  function PhaseOf(source: map<string, Document>, snapshot: SyncJob, r: Round): Phase {
    var f := FetchOf(source, snapshot, r);
    if f.Broken? then Projected(Broken) else Applied(r.ok, f.Missing?)
  }

  function DocsAfter(docs: map<string, Document>, source: map<string, Document>, snapshot: SyncJob, r: Round)
    : map<string, Document>
  {
    var f := FetchOf(source, snapshot, r);
    if f.Broken? || (!r.ok && !r.effect) then docs else ApplyTo(docs, snapshot.projectionKey, f)
  }

  function AtFinalise(j: SyncJob, h: Holder, r: Round): SyncJob {
    var seen := RenewedJob(j, h, r.early);
    if BeatsWork(j, h, r.early) then RenewedJob(seen, h, r.late) else seen
  }

  function Verdict(j: SyncJob, h: Holder, source: map<string, Document>, snapshot: SyncJob, r: Round): LeaseUpdate {
    Decision(snapshot, PhaseOf(source, snapshot, r), !BeatsWork(j, h, r.early), r.error, r.readAt)
  }

  predicate Succeeds(j: SyncJob, h: Holder, r: Round) {
    !r.timedOut && LeaseOwned(AtFinalise(j, h, r), r.at, h.workerID)
  }

  function JobAfter(j: SyncJob, h: Holder, source: map<string, Document>, snapshot: SyncJob, r: Round): SyncJob {
    if Succeeds(j, h, r) then Updated(AtFinalise(j, h, r), Verdict(j, h, source, snapshot, r), r.at)
    else AtFinalise(j, h, r)
  }

  function RoundError(j: SyncJob, h: Holder, r: Round): Option<Error> {
    FinaliseError(AtFinalise(j, h, r), h.workerID, r)
  }

  function FinaliseError(j: SyncJob, workerID: string, r: Round): Option<Error> {
    if r.timedOut then Some(ContextDone) else if !LeaseOwned(j, r.at, workerID) then Some(JobLeaseNotOwned) else None
  }

  /** The drain does not get past job k. */
  predicate Breaks(jobs: map<string, SyncJob>, h: Holder, batch: seq<SyncJob>, rounds: seq<Round>, k: nat)
    requires k < |batch| <= |rounds| && batch[k].id in jobs
  {
    rounds[k].cancelled || !Succeeds(jobs[batch[k].id], h, rounds[k])
  }

  /** Where the drain stops: the first job it does not get past, or the end. */
  ghost predicate StopsAt(jobs: map<string, SyncJob>, h: Holder, batch: seq<SyncJob>, rounds: seq<Round>, stop: nat) {
    && Batch(jobs, batch) && stop <= |batch| <= |rounds|
    && (forall k: nat | k < stop :: !Breaks(jobs, h, batch, rounds, k))
    && (stop < |batch| ==> Breaks(jobs, h, batch, rounds, stop))
  }

  function StopError(jobs: map<string, SyncJob>, h: Holder, batch: seq<SyncJob>, rounds: seq<Round>,
                     stop: nat): Option<Error>
    requires stop < |batch| ==> |batch| <= |rounds| && batch[stop].id in jobs
  {
    if stop >= |batch| then None
    else if rounds[stop].cancelled then Some(ContextDone)
    else RoundError(jobs[batch[stop].id], h, rounds[stop])
  }

  /** What becomes of job k of the batch. */
  function Fate(jobs: map<string, SyncJob>, h: Holder, source: map<string, Document>, batch: seq<SyncJob>,
                rounds: seq<Round>, stop: nat, readAt: Time, releases: seq<Release>, k: nat): SyncJob
    requires k < |batch| <= |rounds| && |batch| <= |releases|
    requires batch[k].id in jobs && (stop < |batch| ==> batch[stop].id in jobs)
  {
    var j, e := jobs[batch[k].id], StopError(jobs, h, batch, rounds, stop);
    if k < stop || (k == stop && !rounds[k].cancelled) then JobAfter(j, h, source, batch[k], rounds[k])
    else if e.Some? then ReleasedJob(j, h.workerID, Message(e.value), readAt, releases[k])
    else j
  }

  /** The documents after the rounds that were started. */
  function DocsAfterRounds(docs: map<string, Document>, source: map<string, Document>, batch: seq<SyncJob>,
                           rounds: seq<Round>, n: nat): map<string, Document>
    requires n <= |batch| <= |rounds|
  {
    if n == 0 then docs
    else DocsAfter(DocsAfterRounds(docs, source, batch, rounds, n - 1), source, batch[n - 1], rounds[n - 1])
  }

  /** A drain that stops at `stop` has written what the rounds up to there wrote, the failed one included. */
  ghost predicate Written(docs: map<string, Document>, docs': map<string, Document>, source: map<string, Document>,
                          batch: seq<SyncJob>, rounds: seq<Round>, stop: nat) {
    && stop <= |batch| <= |rounds|
    && docs' == DocsAfterRounds(docs, source, batch, rounds,
                                if stop < |batch| && !rounds[stop].cancelled then stop + 1 else stop)
  }

  // ----- Accounting -----

  lemma {:induction false} RenewalMovesOnlyTheLease(j: SyncJob, h: Holder, beats: seq<Beat>)
    ensures var r := RenewedJob(j, h, beats);
      r == j.(lockedUntil := r.lockedUntil, updatedAt := r.updatedAt)
    decreases |beats|
  {
    if beats != [] && BeatWorks(j, h, beats[0]) {
      RenewalMovesOnlyTheLease(Updated(j, RenewLease(h.lockFor), beats[0].at), h, beats[1..]);
    }
  }

  lemma FinaliseSeesTheJob(j: SyncJob, h: Holder, r: Round)
    ensures var x := AtFinalise(j, h, r);
      x == j.(lockedUntil := x.lockedUntil, updatedAt := x.updatedAt)
  {
    RenewalMovesOnlyTheLease(j, h, r.early);
    RenewalMovesOnlyTheLease(RenewedJob(j, h, r.early), h, r.late);
  }

  /** The snapshot is of a customer, and its key names one. */
  predicate NamesCustomer(snapshot: SyncJob) {
    && snapshot.projectionType == "Customer" && "customer_id" in snapshot.projectionKey
    && snapshot.projectionKey["customer_id"].JsonString? && snapshot.projectionKey["customer_id"].text != ""
  }

  /** A job the drain got past is finalised once. It is synced, without an attempt, exactly if its customer could be
      projected, the applier did its work and the heartbeats went well; ghost detected exactly if the source does not
      have the customer. Else one attempt is recorded, and it is retrying or dead by the snapshot's count. Its lease
      is gone. */
  lemma PassedJobIsFinalised(j: SyncJob, h: Holder, source: map<string, Document>, snapshot: SyncJob, r: Round)
    requires Succeeds(j, h, r)
    ensures var j' := JobAfter(j, h, source, snapshot, r);
      && SameIdentity(j, j') && j'.lockedBy == None && j'.lockedUntil == None
      && (j'.state == Synced || j'.state == Retrying || j'.state == Dead)
      && j'.attemptCount == j.attemptCount + (if j'.state == Synced then 0 else 1)
      && (j'.state == Synced <==> NamesCustomer(snapshot) && !r.broken && r.ok && BeatsWork(j, h, r.early))
      && (j'.state == Synced ==> j'.syncedAt == Some(r.at)
                                 && j'.ghostDetected == (snapshot.projectionKey["customer_id"].text !in source))
      && (j'.state == Dead ==> snapshot.attemptCount + 1 >= snapshot.maxAttempts && j'.deadAt == Some(r.at))
      && (j'.state == Retrying ==>
            && var n := snapshot.attemptCount + 1;
               && n < snapshot.maxAttempts
               && j'.availableAt == r.readAt + (if n <= 1 then 5_000_000_000 else if n == 2 then 30_000_000_000
                                                else if n == 3 then 120_000_000_000 else 300_000_000_000))
      && (j'.state != Synced ==> j'.lastError == Some(r.error))
  {
    hide RenewedJob; hide BeatsWork;
    FinaliseSeesTheJob(j, h, r);
  }

  /** A round that writes leaves what the source has of the customer: its document, or none. */
  lemma RoundDelivers(docs: map<string, Document>, source: map<string, Document>, snapshot: SyncJob, r: Round)
    ensures DocsAfter(docs, source, snapshot, r)
         == if !NamesCustomer(snapshot) || r.broken || (!r.ok && !r.effect) then docs
            else var customer := snapshot.projectionKey["customer_id"].text;
                 if customer in source then docs[customer := source[customer]] else docs - {customer}
  {
  }

  /** A job whose finalise did not get through keeps everything but the extent of its lease. */
  lemma FailedJobIsKept(j: SyncJob, h: Holder, source: map<string, Document>, snapshot: SyncJob, r: Round)
    requires !Succeeds(j, h, r)
    ensures var j' := JobAfter(j, h, source, snapshot, r);
      j' == j.(lockedUntil := j'.lockedUntil, updatedAt := j'.updatedAt)
  {
    FinaliseSeesTheJob(j, h, r);
  }

  /** Batch failure accounting. Jobs before the stop are finalised exactly once; jobs after it, and the job
      at the stop if it was never started, keep their attempts and, released in time, lose their lock;
      the job whose finalise failed keeps its attempts. */
  lemma BatchAccounting(jobs: map<string, SyncJob>, h: Holder, source: map<string, Document>, batch: seq<SyncJob>,
                        rounds: seq<Round>, stop: nat, readAt: Time, releases: seq<Release>, k: nat)
    requires k < |batch| <= |releases| && StopsAt(jobs, h, batch, rounds, stop)
    ensures var j, j' := jobs[batch[k].id], Fate(jobs, h, source, batch, rounds, stop, readAt, releases, k);
      && (k < stop ==>
            && (j'.state.Synced? || j'.state.Retrying? || j'.state.Dead?) && j'.lockedBy.None?
            && j'.attemptCount == j.attemptCount + (if j'.state.Synced? then 0 else 1))
      && (k >= stop ==> j'.attemptCount == j.attemptCount)
      && (k > stop || (k == stop && rounds[k].cancelled) ==>
            && (ReleaseWorks(j, h.workerID, releases[k]) ==>
                  && j'.state.Retrying? && j'.lockedBy.None? && j'.lockedUntil.None? && j'.availableAt == readAt
                  && (rounds[stop].cancelled ==> j'.lastError == Some("context canceled"))
                  && (!rounds[stop].cancelled && !rounds[stop].timedOut ==>
                        j'.lastError == Some("job lease not owned")))
            && (!ReleaseWorks(j, h.workerID, releases[k]) ==> j' == j))
      && (k == stop && !rounds[k].cancelled ==> j'.state == j.state && j'.lockedBy == j.lockedBy)
  {
    var j := jobs[batch[k].id];
    hide JobAfter; hide Succeeds; hide AtFinalise;
    if k < stop {
      assert !Breaks(jobs, h, batch, rounds, k);
      PassedJobIsFinalised(j, h, source, batch[k], rounds[k]);
    } else if k == stop && !rounds[k].cancelled {
      FailedJobIsKept(j, h, source, batch[k], rounds[k]);
    } else {
      StopHasError(jobs, h, batch, rounds, stop);
    }
  }

  lemma StopHasError(jobs: map<string, SyncJob>, h: Holder, batch: seq<SyncJob>, rounds: seq<Round>, stop: nat)
    requires StopsAt(jobs, h, batch, rounds, stop)
    ensures StopError(jobs, h, batch, rounds, stop).Some? <==> stop < |batch|
    ensures stop <= |batch|
  {
    hide AtFinalise;
  }

  /** If the jobs behind the stop are released before their leases end, at most the one job whose finalise
      failed is left leased to the routine. */
  lemma AtMostOneStaysLeased(jobs: map<string, SyncJob>, h: Holder, source: map<string, Document>, batch: seq<SyncJob>,
                             rounds: seq<Round>, stop: nat, readAt: Time, releases: seq<Release>, k: nat)
    requires k < |batch| <= |releases| && StopsAt(jobs, h, batch, rounds, stop)
    requires forall i: nat | stop <= i < |batch| :: ReleaseWorks(jobs[batch[i].id], h.workerID, releases[i])
    ensures Fate(jobs, h, source, batch, rounds, stop, readAt, releases, k).lockedBy.Some? ==>
              k == stop && !rounds[k].cancelled
  {
    BatchAccounting(jobs, h, source, batch, rounds, stop, readAt, releases, k);
    hide Fate; hide ReleaseWorks;
    if k >= stop { assert ReleaseWorks(jobs[batch[k].id], h.workerID, releases[k]); }
  }

  // ----- The loop's progress -----

  /** The accounting of a drained batch: where it stopped, the fate of each of its jobs, and that no other
      job was touched. */
  ghost predicate Accounted(before: map<string, SyncJob>, after: map<string, SyncJob>, h: Holder,
                            source: map<string, Document>, batch: seq<SyncJob>, rounds: seq<Round>, stop: nat,
                            err: Option<Error>, readAt: Time, releases: seq<Release>) {
    && after.Keys == before.Keys && |batch| <= |releases|
    && StopsAt(before, h, batch, rounds, stop) && err == StopError(before, h, batch, rounds, stop)
    && (forall k: nat | k < |batch| ::
          after[batch[k].id] == Fate(before, h, source, batch, rounds, stop, readAt, releases, k))
    && (forall id | id in before && !InBatch(batch, id) :: after[id] == before[id])
  }

  ghost predicate Passed(before: map<string, SyncJob>, now: map<string, SyncJob>, h: Holder,
                         source: map<string, Document>, batch: seq<SyncJob>, rounds: seq<Round>, i: nat) {
    && Batch(before, batch) && i <= |batch| <= |rounds| && now.Keys == before.Keys
    && (forall k: nat | k < i :: !Breaks(before, h, batch, rounds, k)
                                 && now[batch[k].id] == JobAfter(before[batch[k].id], h, source, batch[k], rounds[k]))
    && (forall k | i <= k < |batch| :: now[batch[k].id] == before[batch[k].id])
    && (forall id | id in before && !InBatch(batch, id) :: now[id] == before[id])
  }

  lemma PassedNone(before: map<string, SyncJob>, h: Holder, source: map<string, Document>, batch: seq<SyncJob>,
                   rounds: seq<Round>)
    requires Batch(before, batch) && |batch| <= |rounds|
    ensures Passed(before, before, h, source, batch, rounds, 0)
  {
  }

  lemma BatchRemains(before: map<string, SyncJob>, now: map<string, SyncJob>, batch: seq<SyncJob>, i: nat)
    requires Batch(before, batch) && i <= |batch| && now.Keys == before.Keys
    ensures Batch(now, batch[i..]) && KnownJobs(now, batch[i..])
  {
  }

  lemma PassedUpTo(before: map<string, SyncJob>, now: map<string, SyncJob>, h: Holder, source: map<string, Document>,
                   batch: seq<SyncJob>, rounds: seq<Round>, i: nat)
    requires i < |batch| && Passed(before, now, h, source, batch, rounds, i)
    ensures now.Keys == before.Keys && batch[i].id in before && now[batch[i].id] == before[batch[i].id]
    ensures Batch(before, batch) && Batch(now, batch[i..]) && KnownJobs(now, batch[i..])
  {
    hide JobAfter; hide Breaks;
  }

  lemma TriedAt(before: map<string, SyncJob>, now: map<string, SyncJob>, tried: map<string, SyncJob>, h: Holder,
                source: map<string, Document>, batch: seq<SyncJob>, rounds: seq<Round>, i: nat)
    requires i < |batch| && Passed(before, now, h, source, batch, rounds, i)
    requires tried == now[batch[i].id := JobAfter(before[batch[i].id], h, source, batch[i], rounds[i])]
    ensures tried.Keys == before.Keys && Batch(before, batch) && |batch| <= |rounds|
    ensures forall k: nat | k <= i ::
              tried[batch[k].id] == JobAfter(before[batch[k].id], h, source, batch[k], rounds[k])
    ensures forall k | i < k < |batch| :: tried[batch[k].id] == before[batch[k].id]
    ensures forall id | id in before && !InBatch(batch, id) :: tried[id] == before[id]
  {
    hide JobAfter; hide Breaks;
    assert InBatch(batch, batch[i].id);
  }

  lemma PassedOneMore(before: map<string, SyncJob>, now: map<string, SyncJob>, tried: map<string, SyncJob>, h: Holder,
                      source: map<string, Document>, batch: seq<SyncJob>, rounds: seq<Round>, i: nat)
    requires i < |batch| && Passed(before, now, h, source, batch, rounds, i)
    requires !Breaks(before, h, batch, rounds, i)
    requires tried == now[batch[i].id := JobAfter(before[batch[i].id], h, source, batch[i], rounds[i])]
    ensures Passed(before, tried, h, source, batch, rounds, i + 1)
  {
    hide JobAfter; hide Breaks; hide InBatch;
    TriedAt(before, now, tried, h, source, batch, rounds, i);
  }

  lemma BreakStops(before: map<string, SyncJob>, now: map<string, SyncJob>, h: Holder, source: map<string, Document>,
                   batch: seq<SyncJob>, rounds: seq<Round>, i: nat)
    requires i < |batch| && Passed(before, now, h, source, batch, rounds, i)
    requires rounds[i].cancelled || RoundError(before[batch[i].id], h, rounds[i]).Some?
    ensures StopsAt(before, h, batch, rounds, i) && StopError(before, h, batch, rounds, i).Some?
    ensures !rounds[i].cancelled ==>
              StopError(before, h, batch, rounds, i) == RoundError(before[batch[i].id], h, rounds[i])
    ensures rounds[i].cancelled ==> StopError(before, h, batch, rounds, i) == Some(ContextDone)
  {
    hide JobAfter; hide AtFinalise;
  }

  lemma CancelledAt(before: map<string, SyncJob>, now: map<string, SyncJob>, after: map<string, SyncJob>, h: Holder,
                    source: map<string, Document>, batch: seq<SyncJob>, rounds: seq<Round>, i: nat, readAt: Time,
                    releases: seq<Release>)
    requires i < |batch| <= |releases| && Passed(before, now, h, source, batch, rounds, i) && rounds[i].cancelled
    requires AllReleased(now, after, h.workerID, batch[i..], Message(ContextDone), readAt, releases[i..])
    ensures Accounted(before, after, h, source, batch, rounds, i, Some(ContextDone), readAt, releases)
  {
    hide JobAfter; hide ReleasedJob; hide Message; hide Succeeds;
    RestOfBatch(before, now, after, h, batch, i, Message(ContextDone), readAt, releases);
    assert Breaks(before, h, batch, rounds, i);
  }

  lemma FailedAt(before: map<string, SyncJob>, now: map<string, SyncJob>, tried: map<string, SyncJob>,
                 after: map<string, SyncJob>, h: Holder, source: map<string, Document>, batch: seq<SyncJob>,
                 rounds: seq<Round>, i: nat, err: Error, readAt: Time, releases: seq<Release>)
    requires i < |batch| <= |releases| && Passed(before, now, h, source, batch, rounds, i) && !rounds[i].cancelled
    requires RoundError(before[batch[i].id], h, rounds[i]) == Some(err)
    requires tried == now[batch[i].id := JobAfter(before[batch[i].id], h, source, batch[i], rounds[i])]
    requires AllReleased(tried, after, h.workerID, batch[i + 1..], Message(err), readAt, releases[i + 1..])
    ensures Accounted(before, after, h, source, batch, rounds, i, Some(err), readAt, releases)
  {
    hide JobAfter; hide ReleasedJob; hide Message; hide AllReleased; hide RoundError; hide StopsAt; hide StopError;
    hide Passed; hide InBatch;
    TriedAt(before, now, tried, h, source, batch, rounds, i);
    BreakStops(before, now, h, source, batch, rounds, i);
    RestOfBatch(before, tried, after, h, batch, i + 1, Message(err), readAt, releases);
  }

  /** Releasing the jobs from index i on leaves those before it and those outside the batch alone. */
  lemma RestOfBatch(before: map<string, SyncJob>, now: map<string, SyncJob>, after: map<string, SyncJob>, h: Holder,
                    batch: seq<SyncJob>, i: nat, reason: string, readAt: Time, releases: seq<Release>)
    requires Batch(before, batch) && now.Keys == before.Keys && i <= |batch| <= |releases|
    requires AllReleased(now, after, h.workerID, batch[i..], reason, readAt, releases[i..])
    ensures after.Keys == before.Keys
    ensures forall k | i <= k < |batch| ::
              after[batch[k].id] == ReleasedJob(now[batch[k].id], h.workerID, reason, readAt, releases[k])
    ensures forall k | 0 <= k < i :: after[batch[k].id] == now[batch[k].id]
    ensures forall id | id in before && !InBatch(batch, id) :: after[id] == now[id]
  {
    hide ReleasedJob;
    var rest := batch[i..];
    forall k | i <= k < |batch|
      ensures after[batch[k].id] == ReleasedJob(now[batch[k].id], h.workerID, reason, readAt, releases[k])
    {
      assert rest[k - i] == batch[k] && releases[i..][k - i] == releases[k];
    }
    forall id | id in before && InBatch(rest, id) ensures InBatch(batch, id) {
      var m :| 0 <= m < |rest| && rest[m].id == id;
      assert batch[i + m].id == id;
    }
    forall k | 0 <= k < i ensures !InBatch(rest, batch[k].id) {
      assert forall m | 0 <= m < |rest| :: rest[m] == batch[i + m];
    }
  }

  lemma PassedAll(before: map<string, SyncJob>, now: map<string, SyncJob>, h: Holder, source: map<string, Document>,
                  batch: seq<SyncJob>, rounds: seq<Round>, readAt: Time, releases: seq<Release>)
    requires |batch| <= |releases| && Passed(before, now, h, source, batch, rounds, |batch|)
    ensures Accounted(before, now, h, source, batch, rounds, |batch|, None, readAt, releases)
  {
    hide JobAfter; hide Breaks;
  }

  // ----- The loop as a function -----

  /** The outcome of a drain: the jobs, the documents, how many jobs it got past, and its error. */
  datatype Outcome = Outcome(jobs: map<string, SyncJob>, docs: map<string, Document>, stop: nat, err: Option<Error>)

  /** The loop of `processBatch`, for any batch, repetitions included. */
  ghost function DrainOutcome(jobs: map<string, SyncJob>, docs: map<string, Document>, h: Holder,
                              source: map<string, Document>, batch: seq<SyncJob>, rounds: seq<Round>, readAt: Time,
                              releases: seq<Release>): (o: Outcome)
    requires KnownJobs(jobs, batch) && |batch| <= |rounds| && |batch| <= |releases|
    ensures o.jobs.Keys == jobs.Keys
    decreases |batch|
  {
    if batch == [] then Outcome(jobs, docs, 0, None)
    else if rounds[0].cancelled then
      Outcome(ReleaseAll(jobs, h.workerID, batch, Message(ContextDone), readAt, releases), docs, 0, Some(ContextDone))
    else
      var id, err := batch[0].id, RoundError(jobs[batch[0].id], h, rounds[0]);
      var next := jobs[id := JobAfter(jobs[id], h, source, batch[0], rounds[0])];
      var written := DocsAfter(docs, source, batch[0], rounds[0]);
      if err.Some? then
        Outcome(ReleaseAll(next, h.workerID, batch[1..], Message(err.value), readAt, releases[1..]), written, 0, err)
      else
        var rest := DrainOutcome(next, written, h, source, batch[1..], rounds[1..], readAt, releases[1..]);
        rest.(stop := rest.stop + 1)
  }

  /** A drain of a batch without repetitions accounts for each job by itself. */
  lemma DrainAccounts(jobs: map<string, SyncJob>, docs: map<string, Document>, h: Holder,
                      source: map<string, Document>, batch: seq<SyncJob>, rounds: seq<Round>, readAt: Time,
                      releases: seq<Release>)
    requires Batch(jobs, batch) && |batch| <= |rounds| && |batch| <= |releases|
    ensures var o := DrainOutcome(jobs, docs, h, source, batch, rounds, readAt, releases);
      && Accounted(jobs, o.jobs, h, source, batch, rounds, o.stop, o.err, readAt, releases)
      && Written(docs, o.docs, source, batch, rounds, o.stop)
  {
    hide DrainOutcome; hide Accounted; hide Passed; hide Batch;
    PassedNone(jobs, h, source, batch, rounds);
    BatchRemains(jobs, jobs, batch, 0);
    assert batch[0..] == batch && rounds[0..] == rounds && releases[0..] == releases;
    DrainFrom(jobs, jobs, docs, docs, h, source, batch, rounds, 0, readAt, releases);
  }

  lemma {:induction false} DrainFrom(before: map<string, SyncJob>, now: map<string, SyncJob>,
                                     docs: map<string, Document>, written: map<string, Document>, h: Holder,
                                     source: map<string, Document>, batch: seq<SyncJob>, rounds: seq<Round>, i: nat,
                                     readAt: Time, releases: seq<Release>)
    requires i <= |batch| <= |releases| && Passed(before, now, h, source, batch, rounds, i)
    requires |batch| <= |rounds| && KnownJobs(now, batch[i..])
    requires written == DocsAfterRounds(docs, source, batch, rounds, i)
    ensures var o := DrainOutcome(now, written, h, source, batch[i..], rounds[i..], readAt, releases[i..]);
      && Accounted(before, o.jobs, h, source, batch, rounds, i + o.stop, o.err, readAt, releases)
      && Written(docs, o.docs, source, batch, rounds, i + o.stop)
    decreases |batch| - i
  {
    hide Accounted; hide Passed; hide Batch; hide KnownJobs; hide JobAfter; hide DocsAfter; hide ReleaseAll;
    hide AllReleased; hide Message; hide AtFinalise; hide LeaseOwned;
    if i == |batch| {
      PassedAll(before, now, h, source, batch, rounds, readAt, releases);
    } else {
      assert batch[i..][0] == batch[i] && rounds[i..][0] == rounds[i];
      PassedUpTo(before, now, h, source, batch, rounds, i);
      if rounds[i].cancelled {
        CancelledFrom(before, now, h, source, batch, rounds, i, readAt, releases);
      } else {
        var tried := now[batch[i].id := JobAfter(before[batch[i].id], h, source, batch[i], rounds[i])];
        assert batch[i..][1..] == batch[i + 1..] && rounds[i..][1..] == rounds[i + 1..];
        assert releases[i..][1..] == releases[i + 1..];
        BatchRemains(before, tried, batch, i + 1);
        if RoundError(before[batch[i].id], h, rounds[i]).Some? {
          FailedFrom(before, now, tried, h, source, batch, rounds, i, readAt, releases);
        } else {
          PassedOneMore(before, now, tried, h, source, batch, rounds, i);
          var more := DocsAfter(written, source, batch[i], rounds[i]);
          DrainFrom(before, tried, docs, more, h, source, batch, rounds, i + 1, readAt, releases);
        }
      }
    }
  }

  lemma CancelledFrom(before: map<string, SyncJob>, now: map<string, SyncJob>, h: Holder, source: map<string, Document>,
                      batch: seq<SyncJob>, rounds: seq<Round>, i: nat, readAt: Time, releases: seq<Release>)
    requires i < |batch| <= |releases| && Passed(before, now, h, source, batch, rounds, i) && rounds[i].cancelled
    requires Batch(now, batch[i..])
    ensures Accounted(before, ReleaseAll(now, h.workerID, batch[i..], Message(ContextDone), readAt, releases[i..]), h,
                      source, batch, rounds, i, Some(ContextDone), readAt, releases)
  {
    hide Accounted; hide Passed; hide ReleaseAll; hide AllReleased; hide Message;
    var reason := Message(ContextDone);
    ReleasesAreIndependent(now, h.workerID, batch[i..], reason, readAt, releases[i..]);
    CancelledAt(before, now, ReleaseAll(now, h.workerID, batch[i..], reason, readAt, releases[i..]), h, source, batch,
                rounds, i, readAt, releases);
  }

  lemma FailedFrom(before: map<string, SyncJob>, now: map<string, SyncJob>, tried: map<string, SyncJob>, h: Holder,
                   source: map<string, Document>, batch: seq<SyncJob>, rounds: seq<Round>, i: nat, readAt: Time,
                   releases: seq<Release>)
    requires i < |batch| <= |releases| && Passed(before, now, h, source, batch, rounds, i) && !rounds[i].cancelled
    requires |batch| <= |rounds| && batch[i].id in before && RoundError(before[batch[i].id], h, rounds[i]).Some?
    requires tried == now[batch[i].id := JobAfter(before[batch[i].id], h, source, batch[i], rounds[i])]
    requires Batch(tried, batch[i + 1..])
    ensures var err := RoundError(before[batch[i].id], h, rounds[i]);
      Accounted(before, ReleaseAll(tried, h.workerID, batch[i + 1..], Message(err.value), readAt, releases[i + 1..]), h,
                source, batch, rounds, i, err, readAt, releases)
  {
    hide Accounted; hide Passed; hide ReleaseAll; hide AllReleased; hide Message; hide JobAfter; hide AtFinalise;
    hide LeaseOwned;
    var e := RoundError(before[batch[i].id], h, rounds[i]).value;
    ReleasesAreIndependent(tried, h.workerID, batch[i + 1..], Message(e), readAt, releases[i + 1..]);
    var after := ReleaseAll(tried, h.workerID, batch[i + 1..], Message(e), readAt, releases[i + 1..]);
    FailedAt(before, now, tried, after, h, source, batch, rounds, i, e, readAt, releases);
  }

  // ----- Claiming -----

  /** One call of the claim loop. */
  datatype Claim = Claim(cancelled: bool, now: Time)

  function ClaimAttempts(claims: seq<Claim>, lockFor: int): (ws: seq<L.Attempt>)
    ensures |ws| == |claims|
    ensures forall i | 0 <= i < |ws| ::
              ws[i] == L.Attempt(if claims[i].cancelled then Some(ContextDone) else None, claims[i].now,
                                 claims[i].now + lockFor)
  {
    seq(|claims|, i requires 0 <= i < |claims| =>
      L.Attempt(if claims[i].cancelled then Some(ContextDone) else None, claims[i].now, claims[i].now + lockFor))
  }

  // ----- One routine's cycle -----

  /** The inputs of one cycle of a routine. */
  datatype Cycle = Cycle(batched: bool, claims: seq<Claim>, rounds: seq<Round>, readAt: Time, releases: seq<Release>)

  /** There is an input for every call. */
  predicate CycleFits(c: Cycle, batchSize: int) {
    0 < batchSize <= |c.claims| && batchSize <= |c.rounds| && batchSize <= |c.releases|
  }

  /** When the lease given with claim n is over. */
  function LeaseOver(c: Cycle, n: nat, lockFor: int): Time
    requires n < |c.claims|
  {
    (if c.batched then c.claims[0].now else c.claims[n].now) + lockFor
  }

  /** The first n jobs are claimed at once, or each before the leases given before it end. */
  ghost predicate ClaimsInTime(c: Cycle, n: nat, lockFor: int) {
    && n <= |c.claims|
    && (!c.batched ==> forall i, k | 0 <= i < k < n :: c.claims[k].now < LeaseOver(c, i, lockFor))
  }

  ghost predicate ClaimOutcome(before: JobTable, after: JobTable, syncID: string, workerID: string, batchSize: int,
                               lockFor: int, c: Cycle, r: Result<seq<SyncJob>>) {
    && Keyed(before.jobs) && 0 < batchSize <= |c.claims|
    && if !c.batched then
         L.LoopOutcome(before, after, syncID, workerID, ClaimAttempts(c.claims[..batchSize], lockFor),
                       c.readAt, c.releases, r)
       else if c.claims[0].cancelled then after == before && r == Err(ContextDone)
       else
         && after == AfterBatch(before, syncID, workerID, batchSize, c.claims[0].now, c.claims[0].now + lockFor)
         && r == Ok(BatchOf(before, syncID, workerID, batchSize, c.claims[0].now, c.claims[0].now + lockFor))
  }

  /** Either way of claiming is a loop of single claims. */
  lemma ClaimedByLoop(before: JobTable, after: JobTable, syncID: string, workerID: string, batchSize: int, lockFor: int,
                      c: Cycle, claimed: seq<SyncJob>) returns (ws: seq<L.Attempt>)
    requires lockFor > 0 && CycleFits(c, batchSize)
    requires ClaimOutcome(before, after, syncID, workerID, batchSize, lockFor, c, Ok(claimed))
    ensures Keyed(before.jobs) && |ws| == batchSize
    ensures after == L.AfterLoop(before, syncID, workerID, ws) && claimed == L.LoopOf(before, syncID, workerID, ws)
    ensures |claimed| <= batchSize && forall i | 0 <= i < |ws| :: ws[i].until == LeaseOver(c, i, lockFor)
    ensures ClaimsInTime(c, |claimed|, lockFor) ==>
              forall i, k | 0 <= i < k < |claimed| :: ws[k].now < ws[i].until
  {
    hide AfterBatch; hide BatchOf; hide L.LoopOf; hide L.AfterLoop; hide L.LoopError; hide Keyed;
    if c.batched {
      var w := L.Attempt(None, c.claims[0].now, c.claims[0].now + lockFor);
      ws := seq(batchSize, i => w);
      L.LoopIsBatch(before, syncID, workerID, ws, w.now, w.until);
    } else {
      ws := ClaimAttempts(c.claims[..batchSize], lockFor);
      assert forall i | 0 <= i < |ws| :: ws[i].now == c.claims[i].now && ws[i].until == c.claims[i].now + lockFor;
    }
  }

  /** A claimed batch names known jobs and is no longer than asked for; claimed in time it names each once. */
  lemma ClaimedBatch(before: JobTable, after: JobTable, syncID: string, workerID: string, batchSize: int, lockFor: int,
                     c: Cycle, claimed: seq<SyncJob>)
    requires lockFor > 0 && CycleFits(c, batchSize)
    requires ClaimOutcome(before, after, syncID, workerID, batchSize, lockFor, c, Ok(claimed))
    ensures KnownJobs(after.jobs, claimed) && |claimed| <= batchSize
    ensures ClaimsInTime(c, |claimed|, lockFor) ==> Batch(after.jobs, claimed)
  {
    hide ClaimOutcome; hide L.LoopOf; hide L.AfterLoop; hide Keyed; hide ClaimsInTime;
    var ws := ClaimedByLoop(before, after, syncID, workerID, batchSize, lockFor, c, claimed);
    L.LoopTakesJobs(before, syncID, workerID, ws);
    if ClaimsInTime(c, |claimed|, lockFor) { L.LoopIsDistinct(before, syncID, workerID, ws); }
  }

  /** What a whole cycle of a routine does: from the table it claims from and the documents, through the claim,
      to the table, the documents and the error it ends with. */
  ghost predicate CycleOutcome(before: JobTable, docs: map<string, Document>, config: WorkerConfig, workerID: string,
                               source: map<string, Document>, c: Cycle, leased: JobTable, r: Result<seq<SyncJob>>,
                               after: JobTable, docs': map<string, Document>, err: Option<Error>) {
    && CycleFits(c, EffectiveBatchSize(config))
    && ClaimOutcome(before, leased, config.syncID, workerID, EffectiveBatchSize(config), config.lockFor, c, r)
    && match r
       case Err(e) => after == leased && docs' == docs && err == Some(e)
       case Ok(claimed) =>
         && KnownJobs(leased.jobs, claimed) && |claimed| <= EffectiveBatchSize(config)
         && var o := DrainOutcome(leased.jobs, docs, Holder(workerID, config.lockFor), source, claimed, c.rounds,
                                  c.readAt, c.releases);
            after == leased.(jobs := o.jobs) && docs' == o.docs && err == o.err
  }

  /** What a whole cycle did to job k of its batch, against the table before the claim: finalised once, or
      given back without an attempt, or (only the job whose finalise failed) left leased. */
  predicate CycleFate(j: SyncJob, j': SyncJob, k: nat, stop: nat, started: bool) {
    && SameIdentity(j, j')
    && (k < stop ==>
          && (j'.state.Synced? || j'.state.Retrying? || j'.state.Dead?) && j'.lockedBy.None?
          && j'.attemptCount == j.attemptCount + (if j'.state.Synced? then 0 else 1))
    && (k > stop || (k == stop && !started) ==> GivenBack(j, j'))
    && (k == stop && started ==> j'.attemptCount == j.attemptCount)
  }

  /** Batch failure accounting of a cycle whose claims, and whose releases, if it makes any, come before its
      leases end. */
  lemma CycleAccounting(before: JobTable, docs: map<string, Document>, config: WorkerConfig, workerID: string,
                        source: map<string, Document>, c: Cycle, leased: JobTable, claimed: seq<SyncJob>,
                        after: JobTable, docs': map<string, Document>, err: Option<Error>, size: nat, stop: nat)
    requires config.lockFor > 0 && size == EffectiveBatchSize(config) && ClaimsInTime(c, |claimed|, config.lockFor)
    requires CycleOutcome(before, docs, config, workerID, source, c, leased, Ok(claimed), after, docs', err)
    requires stop == DrainOutcome(leased.jobs, docs, Holder(workerID, config.lockFor), source, claimed, c.rounds,
                                  c.readAt, c.releases).stop
    requires forall i | 0 <= i < |claimed| :: !c.releases[i].failed
    requires forall i, n | 0 <= i < |claimed| && 0 <= n < |claimed| ::
               c.releases[i].at < LeaseOver(c, n, config.lockFor)
    ensures stop <= |claimed| && (stop == |claimed| <==> err.None?)
    ensures KnownJobs(before.jobs, claimed) && after.jobs.Keys == before.jobs.Keys
    ensures forall k: nat | k < |claimed| ::
              CycleFate(before.jobs[claimed[k].id], after.jobs[claimed[k].id], k, stop,
                        k < |c.rounds| && !c.rounds[k].cancelled)
    ensures forall id | id in before.jobs && !InBatch(claimed, id) :: after.jobs[id] == before.jobs[id]
  {
    hide ClaimOutcome; hide DrainOutcome; hide L.LoopOf; hide L.AfterLoop; hide Keyed; hide StopsAt; hide Fate;
    hide CycleFate; hide LeaseOwned; hide StopError; hide Written; hide ClaimsInTime;
    var h := Holder(workerID, config.lockFor);
    var ws := ClaimedByLoop(before, leased, config.syncID, workerID, size, config.lockFor, c, claimed);
    L.LoopTakesJobs(before, config.syncID, workerID, ws);
    ClaimedBatch(before, leased, config.syncID, workerID, size, config.lockFor, c, claimed);
    DrainAccounts(leased.jobs, docs, h, source, claimed, c.rounds, c.readAt, c.releases);
    StopHasError(leased.jobs, h, claimed, c.rounds, stop);
    forall id | id in before.jobs && !InBatch(claimed, id) ensures after.jobs[id] == before.jobs[id] {
      L.LoopChanges(before, config.syncID, workerID, ws, id);
    }
    forall k: nat | k < |claimed|
      ensures CycleFate(before.jobs[claimed[k].id], after.jobs[claimed[k].id], k, stop,
                        k < |c.rounds| && !c.rounds[k].cancelled)
    {
      assert InBatch(claimed, claimed[k].id);
      L.LoopChanges(before, config.syncID, workerID, ws, claimed[k].id);
      L.LeaseOutlasts(before, config.syncID, workerID, ws, claimed[k].id, c.releases[k].at);
      ClaimedJobFate(before.jobs[claimed[k].id], leased.jobs, h, source, claimed, c.rounds, stop, c.readAt,
                     c.releases, k);
    }
  }

  lemma ClaimedJobFate(j: SyncJob, jobs: map<string, SyncJob>, h: Holder, source: map<string, Document>,
                       batch: seq<SyncJob>, rounds: seq<Round>, stop: nat, readAt: Time, releases: seq<Release>, k: nat)
    requires k < |batch| <= |releases| && StopsAt(jobs, h, batch, rounds, stop)
    requires L.LeasedTo(j, jobs[batch[k].id], h.workerID) && ReleaseWorks(jobs[batch[k].id], h.workerID, releases[k])
    ensures CycleFate(j, Fate(jobs, h, source, batch, rounds, stop, readAt, releases, k), k, stop,
                      k < |rounds| && !rounds[k].cancelled)
  {
    hide Breaks; hide Batch; hide Fate; hide LeaseOwned;
    BatchAccounting(jobs, h, source, batch, rounds, stop, readAt, releases, k);
    FateKeepsIdentity(jobs, h, source, batch, rounds, stop, readAt, releases, k);
  }

  lemma FateKeepsIdentity(jobs: map<string, SyncJob>, h: Holder, source: map<string, Document>, batch: seq<SyncJob>,
                          rounds: seq<Round>, stop: nat, readAt: Time, releases: seq<Release>, k: nat)
    requires k < |batch| <= |releases| && StopsAt(jobs, h, batch, rounds, stop)
    ensures SameIdentity(jobs[batch[k].id], Fate(jobs, h, source, batch, rounds, stop, readAt, releases, k))
  {
    hide Succeeds; hide Verdict; hide Message; hide LeaseOwned; hide AtFinalise; hide StopError; hide Updated;
    var j, e := jobs[batch[k].id], StopError(jobs, h, batch, rounds, stop);
    FinaliseSeesTheJob(j, h, rounds[k]);
    UpdateKeepsIdentity(AtFinalise(j, h, rounds[k]), Verdict(j, h, source, batch[k], rounds[k]), rounds[k].at);
    if e.Some? { UpdateKeepsIdentity(j, RequeueClaimed(Message(e.value), readAt), releases[k].at); }
  }

  // ----- The application's target -----

  datatype Operation = Upsert(projection: Option<Document>) | Delete

  class TargetIndex {
    var docs: map<string, Document>

    constructor ()
      ensures docs == map[]
    {
      docs := map[];
    }

    /** Idempotent: upserts write the whole document, deletes of absent documents succeed. */
    method Apply(key: ProjectionKey, op: Operation) returns (ok: bool)
      modifies this
      ensures ok <==> "customer_id" in key && key["customer_id"].JsonString? && key["customer_id"].text != ""
                      && (op.Upsert? ==> op.projection.Some?)
      ensures ok && op.Upsert? ==> docs == old(docs)[key["customer_id"].text := op.projection.value]
      ensures ok && op.Delete? ==> docs == old(docs) - {key["customer_id"].text}
      ensures docs == if !ok then old(docs)
                      else ApplyTo(old(docs), key, if op.Upsert? then Found(op.projection.value) else Missing)
    {
      if CustomerOf(key).None? { return false; }
      var customer := CustomerOf(key).value;
      match op
      case Upsert(projection) =>
        if projection.None? { return false; }
        docs := docs[customer := projection.value];
        return true;
      case Delete =>
        docs := docs - {customer};
        return true;
    }
  }

  // ----- The worker -----

  class SyncWorker {
    const jobStore: JobMemoryStore
    const target: TargetIndex
    const source: map<string, Document>
    const config: WorkerConfig

    constructor (jobStore: JobMemoryStore, target: TargetIndex, source: map<string, Document>, config: WorkerConfig)
      ensures this.jobStore == jobStore && this.target == target && this.source == source && this.config == config
    {
      this.jobStore, this.target, this.source, this.config := jobStore, target, source, config;
    }

    /** The heartbeat of one job: it renews until it fails once. */
    method HeartbeatLease(jobID: string, workerID: string, beats: seq<Beat>) returns (failed: bool)
      requires jobStore.Valid() && jobID in jobStore.jobs && config.lockFor > 0
      modifies jobStore`jobs
      ensures jobStore.Valid()
      ensures failed <==> !BeatsWork(old(jobStore.jobs)[jobID], Holder(workerID, config.lockFor), beats)
      ensures jobStore.jobs
           == old(jobStore.jobs)[jobID := RenewedJob(old(jobStore.jobs)[jobID],
                                               Holder(workerID, config.lockFor), beats)]
    {
      hide JobsValid;
      ghost var h := Holder(workerID, config.lockFor);
      ghost var before := jobStore.jobs;
      assert before == before[jobID := before[jobID]];
      for i := 0 to |beats|
        invariant jobStore.Valid() && jobID in jobStore.jobs
        invariant jobStore.jobs == before[jobID := jobStore.jobs[jobID]]
        invariant RenewedJob(jobStore.jobs[jobID], h, beats[i..]) == RenewedJob(before[jobID], h, beats)
        invariant BeatsWork(jobStore.jobs[jobID], h, beats[i..]) == BeatsWork(before[jobID], h, beats)
      {
        assert beats[i..][0] == beats[i] && beats[i..][1..] == beats[i + 1..];
        var err := jobStore.RenewLease(beats[i].cancelled, jobID, workerID, config.lockFor, beats[i].at);
        if err.Some? { return true; }
      }
      return false;
    }

    method FailOrRetry(job: SyncJob, workerID: string, r: Round) returns (err: Option<Error>)
      requires jobStore.Valid() && job.id in jobStore.jobs
      modifies jobStore`jobs
      ensures jobStore.Valid()
      ensures err == FinaliseError(old(jobStore.jobs)[job.id], workerID, r)
      ensures jobStore.jobs == if err.Some? then old(jobStore.jobs)
        else old(jobStore.jobs)[job.id :=
               Updated(old(jobStore.jobs)[job.id], Protocol.FailOrRetry(job, r.error, r.readAt), r.at)]
      ensures err.None? <==> !r.timedOut && Owns(old(jobStore.jobs)[job.id], workerID, r.at)
      ensures err.None? && job.attemptCount + 1 < job.maxAttempts ==>
                && var j, n := old(jobStore.jobs)[job.id], job.attemptCount + 1;
                   jobStore.jobs == old(jobStore.jobs)[job.id :=
                     j.(state := Retrying, attemptCount := j.attemptCount + 1, lastError := Some(r.error),
                        availableAt := r.readAt + (if n <= 1 then 5_000_000_000 else if n == 2 then 30_000_000_000
                                                   else if n == 3 then 120_000_000_000 else 300_000_000_000),
                        lockedBy := None, lockedUntil := None, updatedAt := r.at)]
      ensures err.None? && job.attemptCount + 1 >= job.maxAttempts ==>
                && var j := old(jobStore.jobs)[job.id];
                   jobStore.jobs == old(jobStore.jobs)[job.id :=
                     j.(state := Dead, attemptCount := j.attemptCount + 1, lastError := Some(r.error),
                        deadAt := Some(r.at), lockedBy := None, lockedUntil := None, updatedAt := r.at)]
    {
      hide JobsValid;
      var nextAttempt := job.attemptCount + 1;
      if nextAttempt >= job.maxAttempts {
        err := jobStore.UpdateOwned(r.timedOut, job.id, workerID, MarkDead(r.error), r.at);
      } else {
        var nextRunAt := r.readAt + WorkerBackoff(nextAttempt);
        err := jobStore.UpdateOwned(r.timedOut, job.id, workerID, MarkRetrying(r.error, nextRunAt), r.at);
      }
    }

    /** `markSynced`: the finalise of a job whose target write and heartbeats went well. */
    method ReportSynced(jobID: string, workerID: string, ghostDetected: bool, r: Round) returns (err: Option<Error>)
      requires jobStore.Valid() && jobID in jobStore.jobs
      modifies jobStore`jobs
      ensures jobStore.Valid()
      ensures err == FinaliseError(old(jobStore.jobs)[jobID], workerID, r)
      ensures jobStore.jobs == if err.Some? then old(jobStore.jobs)
        else old(jobStore.jobs)[jobID := Updated(old(jobStore.jobs)[jobID], MarkSynced(ghostDetected), r.at)]
    {
      hide JobsValid; hide LeaseOwned; hide Updated;
      err := jobStore.UpdateOwned(r.timedOut, jobID, workerID, MarkSynced(ghostDetected), r.at);
    }

    /** The applier's part of a round: nothing after a failed projection, else an upsert or a delete that can
        fail with or without its effect. */
    method WriteTarget(job: SyncJob, fetched: Fetched, r: Round) returns (applied: bool)
      requires fetched == FetchOf(source, job, r)
      modifies target
      ensures applied <==> !fetched.Broken? && r.ok
      ensures target.docs == DocsAfter(old(target.docs), source, job, r)
    {
      applied := false;
      if !fetched.Broken? && (r.ok || r.effect) {
        var op := if fetched.Found? then Upsert(Some(fetched.doc)) else Delete;
        applied := target.Apply(job.projectionKey, op);
        applied := applied && r.ok;
      }
    }

    /** One job: project, apply, look for a heartbeat error, finalise. */
    method ProcessJob(workerID: string, job: SyncJob, r: Round) returns (err: Option<Error>)
      requires jobStore.Valid() && job.id in jobStore.jobs && config.lockFor > 0
      modifies jobStore`jobs, target
      ensures jobStore.Valid()
      ensures err == RoundError(old(jobStore.jobs)[job.id], Holder(workerID, config.lockFor), r)
      ensures jobStore.jobs == old(jobStore.jobs)[job.id :=
                JobAfter(old(jobStore.jobs)[job.id], Holder(workerID, config.lockFor), source, job, r)]
      ensures target.docs == DocsAfter(old(target.docs), source, job, r)
    {
      hide JobsValid; hide LeaseOwned; hide WorkerBackoff; hide CustomerOf; hide Updated; hide RenewedJob;
      hide BeatsWork; hide UpdateError; hide Protocol.FailOrRetry; hide ApplyTo; hide ProjectFrom;
      var fetched := if r.broken then Broken else ProjectFrom(source, job.projectionType, job.projectionKey);
      var applied := WriteTarget(job, fetched, r);
      var heartbeatFailed := HeartbeatLease(job.id, workerID, r.early);
      if !heartbeatFailed {
        var _ := HeartbeatLease(job.id, workerID, r.late);
      }
      if applied && !heartbeatFailed {
        err := ReportSynced(job.id, workerID, fetched.Missing?, r);
      } else {
        err := FailOrRetry(job, workerID, r);
      }
    }

    /** What a routine does with the jobs it will not process: give them back, whatever each answer is. */
    method RequeueClaimedJobs(workerID: string, batch: seq<SyncJob>, reason: Error, readAt: Time,
                              releases: seq<Release>)
      requires jobStore.Valid() && KnownJobs(jobStore.jobs, batch) && |batch| <= |releases|
      modifies jobStore`jobs
      ensures jobStore.Valid()
      ensures jobStore.jobs == ReleaseAll(old(jobStore.jobs), workerID, batch, Message(reason), readAt, releases)
    {
      hide JobsValid; hide LeaseOwned; hide Message; hide Updated;
      for i := 0 to |batch|
        invariant jobStore.Valid() && KnownJobs(jobStore.jobs, batch[i..])
        invariant ReleaseAll(jobStore.jobs, workerID, batch[i..], Message(reason), readAt, releases[i..])
               == ReleaseAll(old(jobStore.jobs), workerID, batch, Message(reason), readAt, releases)
      {
        assert batch[i..][0] == batch[i] && batch[i..][1..] == batch[i + 1..]
               && releases[i..][1..] == releases[i + 1..];
        ghost var before := jobStore.jobs;
        var _ := jobStore.UpdateOwned(releases[i].failed, batch[i].id, workerID,
                                      RequeueClaimed(Message(reason), readAt), releases[i].at);
        assert before[batch[i].id := before[batch[i].id]] == before;
        assert jobStore.jobs == before[batch[i].id :=
            ReleasedJob(before[batch[i].id], workerID, Message(reason), readAt, releases[i])];
      }
    }

    /** The jobs of a claimed batch, in order, until one of them cannot be started or finalised; the rest is
        requeued. */
    method DrainBatch(workerID: string, batch: seq<SyncJob>, rounds: seq<Round>, readAt: Time, releases: seq<Release>)
      returns (err: Option<Error>)
      requires jobStore.Valid() && config.lockFor > 0
      requires KnownJobs(jobStore.jobs, batch) && |batch| <= |rounds| && |batch| <= |releases|
      modifies jobStore`jobs, target
      ensures jobStore.Valid()
      ensures var o := DrainOutcome(old(jobStore.jobs), old(target.docs), Holder(workerID, config.lockFor),
                                    source, batch, rounds, readAt, releases);
        jobStore.jobs == o.jobs && target.docs == o.docs && err == o.err
    {
      hide JobsValid; hide ReleaseAll; hide JobAfter; hide RoundError; hide DocsAfter; hide Message;
      ghost var h := Holder(workerID, config.lockFor);
      ghost var o := DrainOutcome(jobStore.jobs, target.docs, h, source, batch, rounds, readAt, releases);
      assert batch[0..] == batch && rounds[0..] == rounds && releases[0..] == releases;
      for i := 0 to |batch|
        invariant jobStore.Valid() && KnownJobs(jobStore.jobs, batch[i..])
        invariant var left := DrainOutcome(jobStore.jobs, target.docs, h, source, batch[i..], rounds[i..], readAt,
                                           releases[i..]);
          left.jobs == o.jobs && left.docs == o.docs && left.err == o.err
      {
        assert batch[i..][0] == batch[i] && batch[i..][1..] == batch[i + 1..] && rounds[i..][0] == rounds[i];
        assert rounds[i..][1..] == rounds[i + 1..] && releases[i..][1..] == releases[i + 1..];
        if rounds[i].cancelled {
          RequeueClaimedJobs(workerID, batch[i..], ContextDone, readAt, releases[i..]);
          return Some(ContextDone);
        }
        err := ProcessJob(workerID, batch[i], rounds[i]);
        if err.Some? {
          RequeueClaimedJobs(workerID, batch[i + 1..], err.value, readAt, releases[i + 1..]);
          return;
        }
      }
      return None;
    }

    /** `claimBatch`: one batch claim if the store has it, else up to `batchSize` single claims; if one of
        those fails, what was claimed is given back. */
    method ClaimBatch(workerID: string, batchSize: int, batched: bool, claims: seq<Claim>, readAt: Time,
                      releases: seq<Release>)
      returns (r: Result<seq<SyncJob>>)
      requires jobStore.Valid() && config.lockFor > 0 && 0 < batchSize <= |claims| && batchSize <= |releases|
      modifies jobStore
      ensures jobStore.Valid()
      ensures batched ==>
                if claims[0].cancelled then jobStore.Table() == old(jobStore.Table()) && r == Err(ContextDone)
                else
                  && jobStore.Table() == AfterBatch(old(jobStore.Table()), config.syncID, workerID, batchSize,
                                                    claims[0].now, claims[0].now + config.lockFor)
                  && r == Ok(BatchOf(old(jobStore.Table()), config.syncID, workerID, batchSize,
                                     claims[0].now, claims[0].now + config.lockFor))
      ensures batched && !claims[0].cancelled ==>
                && r.Ok?
                && BatchIsLeased(old(jobStore.jobs), jobStore.jobs, r.value, config.syncID, workerID, batchSize,
                                 claims[0].now, claims[0].now + config.lockFor)
      ensures !batched ==>
                L.LoopOutcome(old(jobStore.Table()), jobStore.Table(), config.syncID, workerID,
                              ClaimAttempts(claims[..batchSize], config.lockFor), readAt, releases, r)
    {
      hide JobsValid; hide BatchOf; hide AfterBatch; hide L.LoopOutcome; hide BatchIsLeased;
      if batched {
        r := jobStore.ClaimNextBatch(claims[0].cancelled, config.syncID, workerID, batchSize,
                                     config.lockFor, claims[0].now);
      } else {
        r := ClaimOneByOne(workerID, claims[..batchSize], readAt, releases);
      }
    }

    method ClaimOneByOne(workerID: string, claims: seq<Claim>, readAt: Time, releases: seq<Release>)
      returns (r: Result<seq<SyncJob>>)
      requires jobStore.Valid() && config.lockFor > 0 && |claims| <= |releases|
      modifies jobStore
      ensures jobStore.Valid()
      ensures L.LoopOutcome(old(jobStore.Table()), jobStore.Table(), config.syncID, workerID,
                            ClaimAttempts(claims, config.lockFor), readAt, releases, r)
    {
      hide Keyed; hide FreshAbove; hide Mapped; hide Message; hide L.Running; hide KnownJobs; hide ReleaseAll;
      hide L.Ends; hide L.LoopOutcome; hide ClaimQueue; hide Claimed;
      ghost var before := jobStore.Table();
      ghost var ws := ClaimAttempts(claims, config.lockFor);
      L.LoopStarts(before, config.syncID, workerID, ws);
      var jobs := [];
      for i := 0 to |claims|
        invariant jobStore.Valid() && L.Running(before, jobStore.Table(), config.syncID, workerID, ws, i, jobs)
      {
        ghost var now := jobStore.Table();
        L.RunningIsKeyed(before, now, config.syncID, workerID, ws, i, jobs);
        var claimed := jobStore.ClaimNext(claims[i].cancelled, config.syncID, workerID, config.lockFor, claims[i].now);
        if claimed.Err? {
          RequeueClaimedJobs(workerID, jobs, claimed.error, readAt, releases);
          L.LoopFails(before, now, jobStore.Table(), config.syncID, workerID, ws, i, jobs, readAt, releases);
          return Err(claimed.error);
        }
        if claimed.value.None? {
          L.LoopSucceeds(before, now, config.syncID, workerID, ws, i, jobs, readAt, releases);
          return Ok(jobs);
        }
        L.LoopGoesOn(before, now, config.syncID, workerID, ws, i, jobs, claimed.value.value);
        jobs := jobs + [claimed.value.value];
      }
      L.LoopSucceeds(before, jobStore.Table(), config.syncID, workerID, ws, |claims|, jobs, readAt, releases);
      return Ok(jobs);
    }

    /** One routine's cycle: claim a batch and drain it. */
    method ProcessBatch(workerID: string, c: Cycle)
      returns (err: Option<Error>, ghost leased: JobTable, ghost r: Result<seq<SyncJob>>)
      requires jobStore.Valid() && config.lockFor > 0 && CycleFits(c, EffectiveBatchSize(config))
      modifies jobStore, target
      ensures jobStore.Valid()
      ensures CycleOutcome(old(jobStore.Table()), old(target.docs), config, workerID, source, c, leased, r,
                           jobStore.Table(), target.docs, err)
      ensures c.batched && !c.claims[0].cancelled ==>
                && r.Ok?
                && BatchIsLeased(old(jobStore.jobs), leased.jobs, r.value, config.syncID, workerID,
                                 if config.batchSize > 0 then config.batchSize else 1, c.claims[0].now,
                                 c.claims[0].now + config.lockFor)
    {
      hide BatchIsLeased; hide Keyed; hide FreshAbove; hide Mapped; hide L.LoopOutcome; hide AfterBatch; hide BatchOf;
      hide KnownJobs;
      var claimed := ClaimBatch(workerID, EffectiveBatchSize(config), c.batched, c.claims, c.readAt, c.releases);
      leased, r := jobStore.Table(), claimed;
      if claimed.Err? { return Some(claimed.error), leased, r; }
      ClaimedBatch(old(jobStore.Table()), leased, config.syncID, workerID, EffectiveBatchSize(config),
                   config.lockFor, c, claimed.value);
      if claimed.value == [] { return None, leased, r; }
      err := DrainBatch(workerID, claimed.value, c.rounds, c.readAt, c.releases);
    }

    /** The dispatch at the start of a cycle: it moves a configured number of the sync's pending deltas, the oldest,
        or as many as its routines can claim, or all if there are fewer. */
    method DispatchDeltas(dispatcher: MemoryDispatchStore?, cancelled: bool, now: Time) returns (err: Option<Error>)
      requires dispatcher != null ==> dispatcher.Valid()
      modifies if dispatcher != null then {dispatcher.deltaStore, dispatcher.jobStore} else {}
      ensures dispatcher != null ==> dispatcher.Valid()
      ensures err == if dispatcher != null && cancelled then Some(ContextDone) else None
      ensures dispatcher != null ==>
                dispatcher.Tables() == if cancelled then old(dispatcher.Tables())
                                       else AfterDispatch(old(dispatcher.Tables()), config.syncID,
                                                          EffectivePullSize(config), now)
      ensures dispatcher != null && !cancelled ==>
                && var before, after := old(dispatcher.deltaStore.deltas), dispatcher.deltaStore.deltas;
                   var limit := if config.pullSize > 0 then config.pullSize
                                else (if config.concurrency > 0 then config.concurrency else 1)
                                     * (if config.batchSize > 0 then config.batchSize else 1);
                   && M.OldestAreMoved(before, after, config.syncID, limit, now)
                   && |F.PendingIDs(after, config.syncID)|
                      == |F.PendingIDs(before, config.syncID)| - Min(|F.PendingIDs(before, config.syncID)|, limit)
    {
      hide AfterDispatch; hide M.OldestAreMoved; hide M.JobsAreMade; hide EffectivePullSize; hide StoresValid;
      PullFeedsTheRoutines(config);
      if dispatcher != null {
        var dispatched := dispatcher.DispatchPending(cancelled, config.syncID, EffectivePullSize(config), now);
        if dispatched.Err? { return Some(dispatched.error); }
        M.MovedArePendingNoMore(old(dispatcher.deltaStore.deltas), dispatcher.deltaStore.deltas, config.syncID,
                                EffectivePullSize(config), now);
      }
      return None;
    }

    /** One cycle of a worker with one routine: dispatch, then claim and drain a batch. */
    method RunOnce(dispatcher: MemoryDispatchStore?, cancelled: bool, now: Time, c: Cycle)
      returns (err: Option<Error>, ghost table: JobTable, ghost leased: JobTable, ghost r: Result<seq<SyncJob>>)
      requires jobStore.Valid() && config.concurrency <= 1 && CycleFits(c, EffectiveBatchSize(config))
      requires dispatcher != null ==> dispatcher.jobStore == jobStore && dispatcher.Valid()
      modifies jobStore, target, if dispatcher != null then {dispatcher.deltaStore} else {}
      ensures jobStore.Valid()
      ensures config.syncID == "" || config.workerID == "" || config.lockFor <= 0 ==> err == Some(InvalidConfig)
      ensures !ConfigValid(config) || (dispatcher != null && cancelled) ==>
                && err.Some? && jobStore.Table() == old(jobStore.Table()) && target.docs == old(target.docs)
                && (dispatcher != null ==> dispatcher.Tables() == old(dispatcher.Tables()))
      ensures ConfigValid(config) && !(dispatcher != null && cancelled) ==>
                && (dispatcher == null ==> table == old(jobStore.Table()))
                && (dispatcher != null ==>
                      && var st := AfterDispatch(old(dispatcher.Tables()), config.syncID,
                                                  EffectivePullSize(config), now);
                         table == st.jobs && dispatcher.deltaStore.Table() == st.deltas)
                && CycleOutcome(table, old(target.docs), config, config.workerID, source, c, leased, r,
                                jobStore.Table(), target.docs, err)
      ensures config.syncID != "" && config.workerID != "" && config.lockFor > 0 && dispatcher != null && !cancelled ==>
                && var before, after := old(dispatcher.deltaStore.deltas), dispatcher.deltaStore.deltas;
                   var limit := if config.pullSize > 0 then config.pullSize
                                else if config.batchSize > 0 then config.batchSize else 1;
                   && M.OldestAreMoved(before, after, config.syncID, limit, now)
                   && |F.PendingIDs(after, config.syncID)|
                      == |F.PendingIDs(before, config.syncID)| - Min(|F.PendingIDs(before, config.syncID)|, limit)
      ensures config.syncID != "" && config.workerID != "" && config.lockFor > 0 && !(dispatcher != null && cancelled)
              && c.batched && !c.claims[0].cancelled ==>
                && r.Ok?
                && BatchIsLeased(table.jobs, leased.jobs, r.value, config.syncID, config.workerID,
                                 if config.batchSize > 0 then config.batchSize else 1, c.claims[0].now,
                                 c.claims[0].now + config.lockFor)
    {
      hide AfterDispatch; hide CycleOutcome; hide D.DeltasValid; hide JobsValid; hide BatchIsLeased;
      hide M.OldestAreMoved;
      table, leased, r := jobStore.Table(), jobStore.Table(), Ok([]);
      if !ConfigValid(config) { return Some(InvalidConfig), table, leased, r; }
      var failed := DispatchDeltas(dispatcher, cancelled, now);
      if failed.Some? { return failed, table, leased, r; }
      table := jobStore.Table();
      err, leased, r := ProcessBatch(WorkerIDForRoutine(config.workerID, 0), c);
    }
  }
}
