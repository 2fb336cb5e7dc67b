/** The job store of the throughput benchmark: a cursor over a pre-sorted listing with a full scan behind it,
    and a counter of finished jobs. */
module Bench {
  import opened Types
  import opened Ranks
  import opened Jobs
  import opened JobFields
  import JobStore

  function TerminalIDs(jobs: map<string, SyncJob>): set<string> {
    set id | id in jobs && Terminal(jobs[id])
  }

  /** A seed of the benchmark: waiting to be claimed for the first time. */
  predicate Seed(j: SyncJob) {
    j.state.Pending? || j.state.Retrying?
  }

  // ----- Claiming job by job -----

  /** What a batch claim has done after leasing the jobs of `taken`, in that order. */
  ghost predicate Taking(before: map<string, SyncJob>, jobs: map<string, SyncJob>, taken: seq<Rank>,
                         claimed: seq<SyncJob>, syncID: string, workerID: string, now: Time, until: Time) {
    && jobs == LeaseSet(before, Ids(taken), workerID, now, until)
    && |claimed| == |taken|
    && (forall i | 0 <= i < |taken| ::
          && taken[i].id in before && Claimable(before[taken[i].id], now, syncID)
          && ClaimRank(before[taken[i].id]) == taken[i]
          && claimed[i] == Claimed(before[taken[i].id], workerID, now, until))
    && (forall i, k | 0 <= i < k < |taken| :: taken[i].id != taken[k].id)
  }

  lemma TakeOne(before: map<string, SyncJob>, jobs: map<string, SyncJob>, taken: seq<Rank>, claimed: seq<SyncJob>,
                syncID: string, workerID: string, now: Time, until: Time, id: string)
    requires Taking(before, jobs, taken, claimed, syncID, workerID, now, until)
    requires id in before && id !in Ids(taken) && Claimable(before[id], now, syncID)
    requires before[id].id == id
    ensures id in jobs && jobs[id] == before[id]
    ensures Taking(before, Lease(jobs, id, workerID, now, until), taken + [ClaimRank(before[id])],
                   claimed + [Claimed(jobs[id], workerID, now, until)], syncID, workerID, now, until)
    ensures Ids(taken + [ClaimRank(before[id])]) == Ids(taken) + {id}
  {
    hide Claimable; hide Claimed;
    var more := taken + [ClaimRank(before[id])];
    assert more[|taken|].id == id && forall i | 0 <= i < |taken| :: more[i] == taken[i];
    assert forall i | 0 <= i < |taken| :: taken[i].id in Ids(taken);
    assert Ids(more) == Ids(taken) + {id};
  }

  /** Leased past `now`, the jobs taken are not claimable any more; the others are what they were. */
  lemma RemainingRanks(before: map<string, SyncJob>, jobs: map<string, SyncJob>, taken: seq<Rank>,
                       claimed: seq<SyncJob>, syncID: string, workerID: string, now: Time, until: Time)
    requires Keyed(before) && now < until && Taking(before, jobs, taken, claimed, syncID, workerID, now, until)
    ensures Keyed(jobs) && ClaimRanks(jobs, syncID, now) == ClaimRanks(before, syncID, now) - Elements(taken)
    ensures Elements(taken) <= ClaimRanks(before, syncID, now) && |Elements(taken)| == |taken|
  {
    hide Before;
    forall r | r in ClaimRanks(jobs, syncID, now)
      ensures r in ClaimRanks(before, syncID, now) && r !in Elements(taken) {
      var id :| id in jobs && Claimable(jobs[id], now, syncID) && ClaimRank(jobs[id]) == r;
      assert id !in Ids(taken) && before[id] == jobs[id];
    }
    forall r | r in ClaimRanks(before, syncID, now) && r !in Elements(taken)
      ensures r in ClaimRanks(jobs, syncID, now) {
      var id :| id in before && Claimable(before[id], now, syncID) && ClaimRank(before[id]) == r;
      assert id !in Ids(taken);
      assert jobs[id] == before[id];
    }
    DistinctElements(taken);
  }

  lemma {:induction false} DistinctElements(s: seq<Rank>)
    requires forall i, k | 0 <= i < k < |s| :: s[i].id != s[k].id
    ensures |Elements(s)| == |s|
    decreases |s|
  {
    if s != [] {
      var init := s[..|s| - 1];
      assert s == init + [s[|s| - 1]];
      AppendElements(init, s[|s| - 1]);
      DistinctElements(init);
    }
  }

  lemma TerminalsUnclaimed(before: map<string, SyncJob>, jobs: map<string, SyncJob>, taken: seq<Rank>,
                           claimed: seq<SyncJob>, syncID: string, workerID: string, now: Time, until: Time)
    requires Taking(before, jobs, taken, claimed, syncID, workerID, now, until)
    ensures TerminalIDs(jobs) == TerminalIDs(before)
  {
  }

  // ----- The cursor -----

  /** The listing names every job once, in the claim order of the seeds; from the cursor on, jobs are as seeded. */
  ghost predicate CursorValid(seeds: map<string, SyncJob>, jobs: map<string, SyncJob>, order: seq<Rank>, next: nat) {
    && Keyed(jobs) && Keyed(seeds) && jobs.Keys == seeds.Keys && next <= |order|
    && (forall id | id in seeds :: Seed(seeds[id]))
    && Lists(seeds, order) && Ids(order) == seeds.Keys
    && (forall i | next <= i < |order| :: jobs[order[i].id] == seeds[order[i].id])
  }

  ghost predicate Between(order: seq<Rank>, start: nat, next: nat, r: Rank) {
    next <= |order| && exists p: nat :: start <= p < next && order[p] == r
  }

  /** After the cursor has walked from `start` to `next`: it has taken exactly the claimable jobs it passed. */
  ghost predicate Walked(before: map<string, SyncJob>, order: seq<Rank>, start: nat, next: nat, taken: seq<Rank>,
                         syncID: string, now: Time) {
    && start <= next <= |order| && Ascending(taken)
    && (forall i | 0 <= i < |taken| :: Between(order, start, next, taken[i]))
    && (forall p | start <= p < next ::
          && order[p].id in before
          && (Claimable(before[order[p].id], now, syncID) ==> order[p] in Elements(taken)))
  }

  lemma PositionBetween(order: seq<Rank>, start: nat, next: nat, r: Rank) returns (p: nat)
    requires Between(order, start, next, r)
    ensures start <= p < next <= |order| && order[p] == r
  {
    p :| start <= p < next && order[p] == r;
  }

  /** The job at the cursor has not been taken, and comes after all that have. */
  lemma CursorIsFresh(seeds: map<string, SyncJob>, before: map<string, SyncJob>, order: seq<Rank>, start: nat,
                      next: nat, taken: seq<Rank>, syncID: string, now: Time)
    requires CursorValid(seeds, before, order, start) && Walked(before, order, start, next, taken, syncID, now)
    requires next < |order|
    ensures order[next].id in before && ClaimRank(before[order[next].id]) == order[next]
    ensures forall i | 0 <= i < |taken| :: Before(taken[i], order[next]) && taken[i].id != order[next].id
  {
    hide Before; hide Claimable; hide Seed;
    forall i | 0 <= i < |taken| ensures Before(taken[i], order[next]) && taken[i].id != order[next].id {
      var p := PositionBetween(order, start, next, taken[i]);
      assert Before(order[p], order[next]);
      if taken[i].id == order[next].id { DistinctIds(seeds, order, p, next); }
    }
  }

  lemma WalkOne(before: map<string, SyncJob>, order: seq<Rank>, start: nat, next: nat, taken: seq<Rank>, syncID: string,
                now: Time, more: seq<Rank>)
    requires Walked(before, order, start, next, taken, syncID, now) && next < |order| && order[next].id in before
    requires forall i | 0 <= i < |taken| :: Before(taken[i], order[next])
    requires more == if Claimable(before[order[next].id], now, syncID) then taken + [order[next]] else taken
    ensures Walked(before, order, start, next + 1, more, syncID, now)
  {
    hide Before; hide Claimable;
    AppendElements(taken, order[next]);
    forall i | 0 <= i < |more| ensures Between(order, start, next + 1, more[i]) {
      if i < |taken| {
        var p := PositionBetween(order, start, next, taken[i]);
        assert order[p] == more[i];
      } else {
        assert order[next] == more[i];
      }
    }
  }

  /** Nothing behind the cursor can be claimed. */
  ghost predicate NothingBehind(jobs: map<string, SyncJob>, order: seq<Rank>, start: nat, syncID: string, now: Time) {
    start <= |order| && forall p | 0 <= p < start :: order[p].id in jobs && !Claimable(jobs[order[p].id], now, syncID)
  }

  /** Then what the cursor took is down-closed among what can be claimed, ... */
  lemma WalkedIsDownClosed(seeds: map<string, SyncJob>, before: map<string, SyncJob>, order: seq<Rank>, start: nat,
                           next: nat, taken: seq<Rank>, syncID: string, now: Time, x: Rank, y: Rank)
    requires CursorValid(seeds, before, order, start) && Walked(before, order, start, next, taken, syncID, now)
    requires NothingBehind(before, order, start, syncID, now)
    requires x in ClaimRanks(before, syncID, now) && y in Elements(taken) && (Before(x, y) || next == |order|)
    ensures x in Elements(taken)
  {
    hide Before; hide Claimable; hide Seed; hide Sorted;
    var p := PositionInOrder(seeds, before, order, start, syncID, now, x);
    if next < |order| {
      var i :| 0 <= i < |taken| && taken[i] == y;
      var q := PositionBetween(order, start, next, taken[i]);
      OrderReflects(order, p, q);
    }
  }

  /** ... so it is a prefix of the sorted scan, and all of it once the cursor has reached the end. */
  lemma WalkedIsPrefix(seeds: map<string, SyncJob>, before: map<string, SyncJob>, order: seq<Rank>, start: nat,
                       next: nat, taken: seq<Rank>, syncID: string, now: Time)
    requires CursorValid(seeds, before, order, start) && Walked(before, order, start, next, taken, syncID, now)
    requires Elements(taken) <= ClaimRanks(before, syncID, now) && NothingBehind(before, order, start, syncID, now)
    ensures taken <= ClaimQueue(before, syncID, now)
    ensures next == |order| ==> taken == ClaimQueue(before, syncID, now)
  {
    hide Before; hide Claimable; hide Sorted; hide Seed; hide NothingBehind;
    var S, T := ClaimRanks(before, syncID, now), Elements(taken);
    forall x, y | x in S && y in T && Before(x, y) ensures x in T {
      WalkedIsDownClosed(seeds, before, order, start, next, taken, syncID, now, x, y);
    }
    DownClosedIsPrefix(S, T);
    SortedIsUnique(taken);
    if next == |order| {
      forall x | x in S ensures x in T {
        var p := PositionInOrder(seeds, before, order, start, syncID, now, x);
      }
      assert S == T;
    }
  }

  lemma OrderReflects(order: seq<Rank>, p: nat, q: nat)
    requires Ascending(order) && p < |order| && q < |order| && Before(order[p], order[q])
    ensures p < q
  {
    hide Before;
    BeforeIsStrictTotalOrder(order[p], order[q], order[p]);
  }

  lemma PositionInOrder(seeds: map<string, SyncJob>, before: map<string, SyncJob>, order: seq<Rank>, start: nat,
                        syncID: string, now: Time, x: Rank) returns (p: nat)
    requires CursorValid(seeds, before, order, start) && x in ClaimRanks(before, syncID, now)
    requires NothingBehind(before, order, start, syncID, now)
    ensures start <= p < |order| && order[p] == x && Claimable(before[order[p].id], now, syncID)
  {
    hide Before; hide Claimable; hide Seed;
    var id :| id in before && Claimable(before[id], now, syncID) && ClaimRank(before[id]) == x;
    assert id in Ids(order);
    p :| 0 <= p < |order| && order[p].id == id;
  }

  // ----- The counter -----

  /** A job that becomes terminal is counted once. */
  lemma FinishOne(jobs: map<string, SyncJob>, id: string, j: SyncJob)
    requires id in jobs && !Terminal(jobs[id])
    ensures |TerminalIDs(jobs[id := j])| == |TerminalIDs(jobs)| + (if Terminal(j) then 1 else 0)
  {
    assert TerminalIDs(jobs[id := j]) == TerminalIDs(jobs) + (if Terminal(j) then {id} else {});
  }

  lemma AllFinished(jobs: map<string, SyncJob>)
    ensures |TerminalIDs(jobs)| <= |jobs|
    ensures |TerminalIDs(jobs)| == |jobs| <==> forall id | id in jobs :: Terminal(jobs[id])
  {
    Subset(TerminalIDs(jobs), jobs.Keys);
    assert TerminalIDs(jobs) == jobs.Keys <==> forall id | id in jobs :: id in TerminalIDs(jobs);
  }

  lemma {:induction false} Subset<T>(a: set<T>, b: set<T>)
    requires a <= b
    ensures |a| <= |b| && (|a| == |b| ==> a == b)
  {
    if a != {} {
      var x :| x in a;
      Subset(a - {x}, b - {x});
    }
  }

  // ----- The whole batch -----

  /** A batch of the benchmark store: as many jobs as can be claimed up to the limit, each once, each
      claimable before and leased now, and no other job touched. */
  ghost predicate FullBatch(before: map<string, SyncJob>, after: map<string, SyncJob>, claimed: seq<SyncJob>,
                            syncID: string, workerID: string, limit: int, now: Time, until: Time) {
    && |claimed| == Min(|OpenIDs(before, syncID, now)|, limit)
    && (forall i, k | 0 <= i < k < |claimed| :: claimed[i].id != claimed[k].id)
    && (forall i | 0 <= i < |claimed| ::
          && claimed[i].id in before && OpenTo(before[claimed[i].id], syncID, now)
          && claimed[i] == before[claimed[i].id].(state := Processing, lockedBy := Some(workerID),
                                                  lockedUntil := Some(until), updatedAt := now))
    && after.Keys == before.Keys
    && (forall i | 0 <= i < |claimed| :: after[claimed[i].id] == claimed[i])
    && (forall id | id in before && !InBatch(claimed, id) :: after[id] == before[id])
  }

  lemma TakingIsFull(before: map<string, SyncJob>, after: map<string, SyncJob>, taken: seq<Rank>, claimed: seq<SyncJob>,
                     syncID: string, workerID: string, limit: int, now: Time, until: Time)
    requires Keyed(before) && Taking(before, after, taken, claimed, syncID, workerID, now, until)
    requires |taken| == Min(|ClaimRanks(before, syncID, now)|, limit)
    ensures FullBatch(before, after, claimed, syncID, workerID, limit, now, until)
  {
    hide Claimable; hide ClaimRanks; hide OpenTo; hide OpenIDs;
    OpenAreRanked(before, syncID, now);
    forall i | 0 <= i < |taken| ensures OpenTo(before[taken[i].id], syncID, now) {
      ClaimableIsOpen(before[taken[i].id], syncID, now);
    }
    assert forall i | 0 <= i < |taken| :: claimed[i].id == taken[i].id;
    assert forall i | 0 <= i < |taken| :: taken[i].id in Ids(taken);
    forall id | id in before ensures id in Ids(taken) <==> InBatch(claimed, id) {
      if id in Ids(taken) {
        var i :| 0 <= i < |taken| && taken[i].id == id;
        assert claimed[i].id == id;
      }
    }
  }

  /** A prefix of the sorted scan, leased in order, is the batch claim of the job store. */
  lemma PrefixIsBatch(t: JobTable, after: map<string, SyncJob>, taken: seq<Rank>, claimed: seq<SyncJob>, syncID: string,
                      workerID: string, limit: nat, now: Time, until: Time)
    requires Keyed(t.jobs) && Taking(t.jobs, after, taken, claimed, syncID, workerID, now, until)
    requires taken == Take(ClaimQueue(t.jobs, syncID, now), limit)
    ensures after == AfterBatch(t, syncID, workerID, limit, now, until).jobs
    ensures claimed == BatchOf(t, syncID, workerID, limit, now, until)
  {
    hide Before; hide Claimable; hide Sorted; hide Claimed; hide LeaseSet;
    LeaseAllAtOnce(t.jobs, taken, workerID, now, until);
    CopiesAreLeased(t.jobs, taken, workerID, now, until);
  }

  lemma SeedsAreListed(seedJobs: seq<SyncJob>, all: map<string, SyncJob>, ids: seq<Rank>, sorted: seq<Rank>)
    requires Loaded(seedJobs, |seedJobs|, all, ids) && sorted == Sorted(Elements(ids))
    ensures CursorValid(all, all, sorted, 0) && TerminalIDs(all) == {}
  {
    hide Before; hide Sorted; hide ClaimRank; hide Ids; hide Seed;
    forall i | 0 <= i < |sorted| ensures sorted[i].id in all && ClaimRank(all[sorted[i].id]) == sorted[i] {
      assert sorted[i] in Elements(ids);
      SeedOfRank(seedJobs, all, ids, sorted[i]);
    }
    SameIds(ids, sorted);
    NoneTerminal(all);
  }

  lemma SeedOfRank(seedJobs: seq<SyncJob>, all: map<string, SyncJob>, ids: seq<Rank>, r: Rank)
    requires Loaded(seedJobs, |seedJobs|, all, ids) && r in Elements(ids)
    ensures r.id in all && ClaimRank(all[r.id]) == r
  {
    hide Seed; hide Ids;
    var k :| 0 <= k < |ids| && ids[k] == r;
    assert ids[k] == ClaimRank(seedJobs[k]);
  }

  lemma SameIds(ids: seq<Rank>, sorted: seq<Rank>)
    requires Elements(sorted) == Elements(ids)
    ensures Ids(sorted) == Ids(ids)
  {
    forall i | 0 <= i < |ids| ensures ids[i].id in Ids(sorted) {
      assert ids[i] in Elements(sorted);
    }
    forall i | 0 <= i < |sorted| ensures sorted[i].id in Ids(ids) {
      assert sorted[i] in Elements(ids);
    }
  }

  lemma ListedInDueOrder(all: map<string, SyncJob>, order: seq<Rank>)
    requires CursorValid(all, all, order, 0)
    ensures Ids(order) == all.Keys
    ensures forall i, k | 0 <= i < k < |order| ::
              order[i].id in all && order[k].id in all && DueBefore(all[order[i].id], all[order[k].id])
  {
    hide Before; hide DueBefore; hide Seed;
    forall i, k | 0 <= i < k < |order| ensures DueBefore(all[order[i].id], all[order[k].id]) {
      ClaimRankIsDueOrder(all[order[i].id], all[order[k].id]);
    }
  }

  lemma NoneTerminal(all: map<string, SyncJob>)
    requires forall id | id in all :: Seed(all[id])
    ensures TerminalIDs(all) == {}
  {
  }

  lemma WalkStarts(seeds: map<string, SyncJob>, before: map<string, SyncJob>, order: seq<Rank>, start: nat,
                   syncID: string, workerID: string, now: Time, until: Time)
    requires CursorValid(seeds, before, order, start)
    ensures start <= |order| && Walked(before, order, start, start, [], syncID, now)
    ensures Taking(before, before, [], [], syncID, workerID, now, until)
  {
    hide Before;
    assert Ids([]) == {};
  }

  lemma NotYetTaken(seeds: map<string, SyncJob>, before: map<string, SyncJob>, jobs: map<string, SyncJob>,
                    order: seq<Rank>, start: nat, taken: seq<Rank>, claimed: seq<SyncJob>, id: string, syncID: string,
                    workerID: string, now: Time, until: Time)
    requires CursorValid(seeds, before, order, start)
    requires Taking(before, jobs, taken, claimed, syncID, workerID, now, until)
    requires id in before && forall i | 0 <= i < |taken| :: taken[i].id != id
    ensures id !in Ids(taken) && before[id].id == id && id in jobs && jobs[id] == before[id]
  {
    hide Before; hide Claimable;
  }

  lemma ScanIsFresh(before: map<string, SyncJob>, start: map<string, SyncJob>, jobs: map<string, SyncJob>,
                    walked: seq<Rank>, first: seq<SyncJob>, ids: seq<Rank>, k: nat, taken: seq<Rank>,
                    claimed: seq<SyncJob>, syncID: string, workerID: string, now: Time, until: Time)
    requires Keyed(before) && Keyed(start) && now < until
    requires Taking(before, start, walked, first, syncID, workerID, now, until)
    requires ids == ClaimQueue(start, syncID, now) && k < |ids| && taken == walked + ids[..k]
    requires Taking(before, jobs, taken, claimed, syncID, workerID, now, until)
    ensures var id := ids[k].id;
      && id in before && id !in Ids(taken) && before[id].id == id && ClaimRank(before[id]) == ids[k]
      && Claimable(before[id], now, syncID) && id in jobs && jobs[id] == before[id]
  {
    hide Before; hide Sorted;
    var id := ids[k].id;
    QueueLists(start, syncID, now);
    assert id !in Ids(walked);
    forall i | 0 <= i < |taken| ensures taken[i].id != id {
      if i < |walked| {
        assert walked[i].id in Ids(walked) && taken[i] == walked[i];
      } else {
        assert taken[i] == ids[i - |walked|];
        if ids[i - |walked|].id == id { DistinctIds(start, ids, i - |walked|, k); }
      }
    }
  }

  lemma ScanOne(before: map<string, SyncJob>, start: map<string, SyncJob>, jobs: map<string, SyncJob>,
                walked: seq<Rank>, first: seq<SyncJob>, ids: seq<Rank>, k: nat, taken: seq<Rank>, claimed: seq<SyncJob>,
                syncID: string, workerID: string, now: Time, until: Time)
    requires Keyed(before) && Keyed(start) && now < until
    requires Taking(before, start, walked, first, syncID, workerID, now, until)
    requires ids == ClaimQueue(start, syncID, now) && k < |ids| && taken == walked + ids[..k]
    requires Taking(before, jobs, taken, claimed, syncID, workerID, now, until)
    ensures var id, more := ids[k].id, walked + ids[..k + 1];
      && id in jobs && Claimable(jobs[id], now, syncID) && more == taken + [ids[k]]
      && Taking(before, Lease(jobs, id, workerID, now, until), more,
                claimed + [Claimed(jobs[id], workerID, now, until)],
                syncID, workerID, now, until)
  {
    hide Before; hide Taking; hide Lists; hide Claimable; hide Claimed; hide Sorted; hide Lease; hide Keyed;
    ScanIsFresh(before, start, jobs, walked, first, ids, k, taken, claimed, syncID, workerID, now, until);
    TakeOne(before, jobs, taken, claimed, syncID, workerID, now, until, ids[k].id);
    assert walked + ids[..k + 1] == taken + [ids[k]];
  }

  lemma RestCount(before: map<string, SyncJob>, start: map<string, SyncJob>, walked: seq<Rank>, syncID: string,
                  now: Time)
    requires Elements(walked) <= ClaimRanks(before, syncID, now) && |Elements(walked)| == |walked|
    requires ClaimRanks(start, syncID, now) == ClaimRanks(before, syncID, now) - Elements(walked)
    ensures |ClaimRanks(before, syncID, now)| == |walked| + |ClaimRanks(start, syncID, now)|
  {
    hide ClaimRanks;
    assert ClaimRanks(before, syncID, now) == Elements(walked) + ClaimRanks(start, syncID, now);
  }

  lemma CursorMoves(seeds: map<string, SyncJob>, before: map<string, SyncJob>, jobs: map<string, SyncJob>,
                    order: seq<Rank>, start: nat, next: nat, taken: seq<Rank>, claimed: seq<SyncJob>, syncID: string,
                    workerID: string, now: Time, until: Time)
    requires CursorValid(seeds, before, order, start) && Walked(before, order, start, next, taken, syncID, now)
    requires Taking(before, jobs, taken, claimed, syncID, workerID, now, until)
    ensures CursorValid(seeds, jobs, order, next) && Keyed(before) && start <= next
  {
    hide Before; hide Claimable; hide Seed;
    forall i | next <= i < |order| ensures jobs[order[i].id] == before[order[i].id] {
      forall k | 0 <= k < |taken| ensures taken[k].id != order[i].id {
        var p := PositionBetween(order, start, next, taken[k]);
        if taken[k].id == order[i].id { DistinctIds(seeds, order, p, i); }
      }
      assert order[i].id !in Ids(taken);
    }
  }

  /** Everything a batch claim promises, from what its two phases did. */
  lemma BatchOutcome(seeds: map<string, SyncJob>, before: map<string, SyncJob>, middle: map<string, SyncJob>,
                     jobs: map<string, SyncJob>, order: seq<Rank>, start: nat, next: nat, walked: seq<Rank>,
                     taken: seq<Rank>, claimed: seq<SyncJob>, syncID: string, workerID: string, limit: int, now: Time,
                     until: Time)
    requires CursorValid(seeds, before, order, start) && now < until && limit > 0
    requires Walked(before, order, start, next, walked, syncID, now) && |walked| <= limit
    requires |walked| == limit || next == |order|
    requires CursorValid(seeds, middle, order, next) && (|walked| == limit ==> jobs == middle)
    requires Taking(before, jobs, taken, claimed, syncID, workerID, now, until)
    requires walked <= taken && |taken| == Min(|ClaimRanks(before, syncID, now)|, limit)
    ensures FullBatch(before, jobs, claimed, syncID, workerID, limit, now, until)
    ensures CursorValid(seeds, jobs, order, next)
    ensures TerminalIDs(jobs) == TerminalIDs(before)
    ensures forall t: JobTable | t.jobs == before && NothingBehind(before, order, start, syncID, now) ::
              && claimed == BatchOf(t, syncID, workerID, limit, now, until)
              && jobs == AfterBatch(t, syncID, workerID, limit, now, until).jobs
  {
    hide Ascending; hide Claimable; hide Walked; hide FullBatch; hide Taking; hide ClaimRanks; hide NothingBehind;
    hide Sorted; hide ClaimQueue; hide Seed; hide BatchOf; hide AfterBatch; hide Elements;
    TakingIsFull(before, jobs, taken, claimed, syncID, workerID, limit, now, until);
    RemainingRanks(before, jobs, taken, claimed, syncID, workerID, now, until);
    assert jobs.Keys == before.Keys by { FullKeepsKeys(before, jobs, claimed, syncID, workerID, limit, now, until); }
    TerminalsUnclaimed(before, jobs, taken, claimed, syncID, workerID, now, until);
    forall t: JobTable | t.jobs == before && NothingBehind(before, order, start, syncID, now)
      ensures claimed == BatchOf(t, syncID, workerID, limit, now, until)
      ensures jobs == AfterBatch(t, syncID, workerID, limit, now, until).jobs
    {
      WalkIsBatch(seeds, t, jobs, order, start, next, walked, taken, claimed, syncID, workerID, limit, now, until);
    }
  }

  lemma WalkIsBatch(seeds: map<string, SyncJob>, t: JobTable, jobs: map<string, SyncJob>, order: seq<Rank>, start: nat,
                    next: nat, walked: seq<Rank>, taken: seq<Rank>, claimed: seq<SyncJob>, syncID: string,
                    workerID: string, limit: nat, now: Time, until: Time)
    requires CursorValid(seeds, t.jobs, order, start) && NothingBehind(t.jobs, order, start, syncID, now)
    requires Walked(t.jobs, order, start, next, walked, syncID, now) && (|walked| == limit || next == |order|)
    requires Taking(t.jobs, jobs, taken, claimed, syncID, workerID, now, until)
    requires Elements(taken) <= ClaimRanks(t.jobs, syncID, now)
    requires walked <= taken && |walked| <= limit && |taken| == Min(|ClaimRanks(t.jobs, syncID, now)|, limit)
    ensures claimed == BatchOf(t, syncID, workerID, limit, now, until)
    ensures jobs == AfterBatch(t, syncID, workerID, limit, now, until).jobs
  {
    hide Ascending; hide Claimable; hide Walked; hide Taking; hide ClaimRanks; hide NothingBehind; hide BatchOf;
    hide AfterBatch;
    assert Elements(walked) <= Elements(taken) by { PrefixElements(walked, taken); }
    WalkedIsPrefix(seeds, t.jobs, order, start, next, walked, syncID, now);
    assert taken == walked;
    PrefixIsBatch(t, jobs, taken, claimed, syncID, workerID, limit, now, until);
  }

  lemma FullKeepsKeys(before: map<string, SyncJob>, after: map<string, SyncJob>, claimed: seq<SyncJob>, syncID: string,
                      workerID: string, limit: int, now: Time, until: Time)
    requires FullBatch(before, after, claimed, syncID, workerID, limit, now, until)
    ensures after.Keys == before.Keys
  {
  }

  lemma PrefixElements(s: seq<Rank>, t: seq<Rank>)
    requires s <= t
    ensures Elements(s) <= Elements(t)
  {
    assert forall i | 0 <= i < |s| :: s[i] == t[i];
  }

  ghost predicate DistinctSeeds(seedJobs: seq<SyncJob>) {
    && (forall i | 0 <= i < |seedJobs| :: Seed(seedJobs[i]))
    && (forall i, k | 0 <= i < k < |seedJobs| :: seedJobs[i].id != seedJobs[k].id)
  }

  lemma WaitingAreSeeds(seedJobs: seq<SyncJob>)
    requires forall i | 0 <= i < |seedJobs| :: seedJobs[i].state == Pending || seedJobs[i].state == Retrying
    requires forall i, k | 0 <= i < k < |seedJobs| :: seedJobs[i].id != seedJobs[k].id
    ensures DistinctSeeds(seedJobs)
  {
  }

  /** The first n seeds as a table, and their claim ranks in the order given. */
  ghost predicate Loaded(seedJobs: seq<SyncJob>, n: nat, all: map<string, SyncJob>, ids: seq<Rank>) {
    && n <= |seedJobs| && Keyed(all) && |all| == |ids| == n && Ids(ids) == all.Keys
    && (forall k | 0 <= k < n ::
          seedJobs[k].id in all && all[seedJobs[k].id] == seedJobs[k] && ids[k] == ClaimRank(seedJobs[k]))
    && (forall id | id in all :: Seed(all[id]))
  }

  lemma LoadNone(seedJobs: seq<SyncJob>)
    ensures Loaded(seedJobs, 0, map[], [])
  {
  }

  lemma NextSeedIsNew(seedJobs: seq<SyncJob>, n: nat, ids: seq<Rank>)
    requires DistinctSeeds(seedJobs) && n < |seedJobs| && |ids| == n
    requires forall k | 0 <= k < n :: ids[k] == ClaimRank(seedJobs[k])
    ensures seedJobs[n].id !in Ids(ids)
  {
    hide Seed;
    forall k | 0 <= k < n ensures ids[k].id != seedJobs[n].id {
      assert ids[k].id == seedJobs[k].id;
    }
  }

  lemma LoadOne(seedJobs: seq<SyncJob>, n: nat, all: map<string, SyncJob>, ids: seq<Rank>)
    requires DistinctSeeds(seedJobs) && Loaded(seedJobs, n, all, ids) && n < |seedJobs|
    ensures Loaded(seedJobs, n + 1, all[seedJobs[n].id := seedJobs[n]], ids + [ClaimRank(seedJobs[n])])
  {
    hide Seed; hide Ids; hide ClaimRank;
    NextSeedIsNew(seedJobs, n, ids);
    AppendId(ids, ClaimRank(seedJobs[n]));
    RankNames(seedJobs[n]);
    var seed := seedJobs[n];
    var more, next := ids + [ClaimRank(seed)], all[seed.id := seed];
    assert seed.id !in all && next.Keys == all.Keys + {seed.id};
    forall k | 0 <= k < n
      ensures seedJobs[k].id in next && next[seedJobs[k].id] == seedJobs[k] && more[k] == ClaimRank(seedJobs[k])
    {
      assert seedJobs[k].id in all;
    }
    assert more[n] == ClaimRank(seed);
  }

  lemma RankNames(j: SyncJob)
    ensures ClaimRank(j).id == j.id
  {
  }

  method SeedTable(seedJobs: seq<SyncJob>) returns (all: map<string, SyncJob>, ids: seq<Rank>)
    requires DistinctSeeds(seedJobs)
    ensures Loaded(seedJobs, |seedJobs|, all, ids)
  {
    hide Loaded; hide DistinctSeeds;
    all, ids := map[], [];
    LoadNone(seedJobs);
    for i := 0 to |seedJobs|
      invariant Loaded(seedJobs, i, all, ids)
    {
      LoadOne(seedJobs, i, all, ids);
      all := all[seedJobs[i].id := seedJobs[i]];
      ids := ids + [ClaimRank(seedJobs[i])];
    }
  }

  lemma RanksDiffer(seedJobs: seq<SyncJob>, all: map<string, SyncJob>, ids: seq<Rank>)
    requires DistinctSeeds(seedJobs) && Loaded(seedJobs, |seedJobs|, all, ids)
    ensures forall i, k | 0 <= i < k < |ids| :: ids[i] != ids[k]
  {
    hide Seed;
    assert forall k | 0 <= k < |ids| :: ids[k].id == seedJobs[k].id;
  }

  lemma AppendId(s: seq<Rank>, r: Rank)
    ensures Ids(s + [r]) == Ids(s) + {r.id}
  {
    var t := s + [r];
    assert t[|s|] == r && forall i | 0 <= i < |s| :: t[i] == s[i];
  }

  /** A leased job is behind the cursor, so changing it leaves the cursor's promise alone. */
  lemma OwnedIsBehind(seeds: map<string, SyncJob>, jobs: map<string, SyncJob>, order: seq<Rank>, next: nat, id: string,
                      j: SyncJob)
    requires CursorValid(seeds, jobs, order, next) && id in jobs && jobs[id].state.Processing? && j.id == jobs[id].id
    ensures CursorValid(seeds, jobs[id := j], order, next)
  {
    hide Lists;
    forall i | next <= i < |order| ensures order[i].id != id {
      assert order[i].id in Ids(order);
      assert Seed(seeds[order[i].id]);
    }
  }

  datatype Stats = Stats(synced: nat, dead: nat, retrying: nat, ghosts: nat, claimCalls: nat)

  function InState(jobs: map<string, SyncJob>, ids: set<string>, state: JobState): set<string> {
    set id | id in ids && id in jobs && jobs[id].state == state
  }

  function Ghosts(jobs: map<string, SyncJob>, ids: set<string>): set<string> {
    set id | id in ids && id in jobs && jobs[id].state.Synced? && jobs[id].ghostDetected
  }

  ghost predicate Counts(jobs: map<string, SyncJob>, ids: set<string>, stats: Stats) {
    && stats.synced == |InState(jobs, ids, Synced)|
    && stats.dead == |InState(jobs, ids, Dead)|
    && stats.retrying == |InState(jobs, ids, Retrying)|
    && stats.ghosts == |Ghosts(jobs, ids)|
  }

  function Counted(stats: Stats, j: SyncJob): Stats {
    if j.state.Synced? then stats.(synced := stats.synced + 1,
                     ghosts := stats.ghosts + if j.ghostDetected then 1 else 0)
    else if j.state.Dead? then stats.(dead := stats.dead + 1)
    else if j.state.Retrying? then stats.(retrying := stats.retrying + 1)
    else stats
  }

  lemma StateGrows(jobs: map<string, SyncJob>, ids: set<string>, id: string, state: JobState)
    requires id in jobs && id !in ids
    ensures id !in InState(jobs, ids, state)
    ensures InState(jobs, ids + {id}, state)
         == InState(jobs, ids, state) + if jobs[id].state == state then {id} else {}
  {
  }

  lemma OneMore(jobs: map<string, SyncJob>, ids: set<string>, id: string, state: JobState)
    requires id in jobs && id !in ids
    ensures |InState(jobs, ids + {id}, state)|
         == |InState(jobs, ids, state)| + (if jobs[id].state == state then 1 else 0)
  {
    hide InState;
    StateGrows(jobs, ids, id, state);
  }

  lemma OneMoreGhost(jobs: map<string, SyncJob>, ids: set<string>, id: string)
    requires id in jobs && id !in ids
    ensures |Ghosts(jobs, ids + {id})|
         == |Ghosts(jobs, ids)| + (if jobs[id].state.Synced? && jobs[id].ghostDetected then 1 else 0)
  {
    if jobs[id].state.Synced? && jobs[id].ghostDetected {
      assert Ghosts(jobs, ids + {id}) == Ghosts(jobs, ids) + {id};
    } else {
      assert Ghosts(jobs, ids + {id}) == Ghosts(jobs, ids);
    }
  }

  lemma CountOne(jobs: map<string, SyncJob>, ids: set<string>, stats: Stats, id: string)
    requires Counts(jobs, ids, stats) && id in jobs && id !in ids
    ensures Counts(jobs, ids + {id}, Counted(stats, jobs[id]))
  {
    hide InState; hide Ghosts;
    OneMore(jobs, ids, id, Synced);
    OneMore(jobs, ids, id, Dead);
    OneMore(jobs, ids, id, Retrying);
    OneMoreGhost(jobs, ids, id);
  }

  lemma CountNone(jobs: map<string, SyncJob>)
    ensures InState(jobs, {}, Synced) == {} && InState(jobs, {}, Dead) == {} && InState(jobs, {}, Retrying) == {}
    ensures Ghosts(jobs, {}) == {}
  {
  }

  lemma TerminalsAreSyncedOrDead(jobs: map<string, SyncJob>)
    ensures |TerminalIDs(jobs)| == |InState(jobs, jobs.Keys, Synced)| + |InState(jobs, jobs.Keys, Dead)|
  {
    assert TerminalIDs(jobs) == InState(jobs, jobs.Keys, Synced) + InState(jobs, jobs.Keys, Dead);
  }

  class BenchJobStore {
    var jobs: map<string, SyncJob>
    const order: seq<Rank>
    var nextIndex: nat
    var completed: nat
    var claimCalls: nat
    ghost const seeds: map<string, SyncJob>

    /** The counter is the number of synced and dead jobs; the cursor has not passed an untouched job wrongly. */
    ghost predicate Valid()
      reads this
    {
      CursorValid(seeds, jobs, order, nextIndex) && completed == |TerminalIDs(jobs)|
    }

    constructor (seedJobs: seq<SyncJob>)
      requires forall i | 0 <= i < |seedJobs| :: seedJobs[i].state == Pending || seedJobs[i].state == Retrying
      requires forall i, k | 0 <= i < k < |seedJobs| :: seedJobs[i].id != seedJobs[k].id
      ensures Valid() && jobs == seeds && nextIndex == 0 && completed == 0 && claimCalls == 0
      ensures exists ids :: Loaded(seedJobs, |seedJobs|, jobs, ids)
      ensures Ids(order) == jobs.Keys
      ensures forall i, k | 0 <= i < k < |order| ::
                order[i].id in jobs && order[k].id in jobs && DueBefore(jobs[order[i].id], jobs[order[k].id])
    {
      hide Loaded; hide DistinctSeeds; hide CursorValid; hide TerminalIDs;
      WaitingAreSeeds(seedJobs);
      var all, ids := SeedTable(seedJobs);
      RanksDiffer(seedJobs, all, ids);
      var sorted := Sort(ids);
      SeedsAreListed(seedJobs, all, ids, sorted);
      ListedInDueOrder(all, sorted);
      jobs, order, nextIndex, completed, claimCalls := all, sorted, 0, 0, 0;
      seeds := all;
    }

    /** `claimLocked`: lease the job if it is of the sync and claimable. */
    method ClaimLocked(id: string, syncID: string, workerID: string, now: Time,
                       until: Time) returns (copy: Option<SyncJob>)
      modifies this`jobs
      ensures copy.Some? <==> id in old(jobs) && Claimable(old(jobs)[id], now, syncID)
      ensures copy.None? ==> jobs == old(jobs)
      ensures copy.Some? ==> copy.value == Claimed(old(jobs)[id], workerID, now, until)
                             && jobs == Lease(old(jobs), id, workerID, now, until)
      ensures copy.Some? <==> id in old(jobs) && OpenTo(old(jobs)[id], syncID, now)
      ensures copy.Some? ==>
                && copy.value == old(jobs)[id].(state := Processing, lockedBy := Some(workerID),
                                                lockedUntil := Some(until), updatedAt := now)
                && jobs == old(jobs)[id := copy.value]
    {
      if id !in jobs || jobs[id].syncID != syncID { return None; }
      if !Ready(jobs[id], now) { return None; }
      jobs := jobs[id := Claimed(jobs[id], workerID, now, until)];
      return Some(jobs[id]);
    }

    method ClaimNextBatch(cancelled: bool, syncID: string, workerID: string, limit: int, lockFor: int, now: Time)
      returns (r: Result<seq<SyncJob>>)
      requires Valid()
      modifies this
      ensures Valid() && old(nextIndex) <= nextIndex && completed == old(completed)
      ensures cancelled || lockFor <= 0 ==>
                && jobs == old(jobs) && nextIndex == old(nextIndex) && claimCalls == old(claimCalls)
                && r == Err(if cancelled then ContextDone else InvalidLockFor)
      ensures !cancelled && lockFor > 0 && limit <= 0 ==>
                jobs == old(jobs) && nextIndex == old(nextIndex) && claimCalls == old(claimCalls) && r == Ok([])
      ensures !cancelled && lockFor > 0 && limit > 0 ==>
                && claimCalls == old(claimCalls) + 1 && r.Ok?
                && FullBatch(old(jobs), jobs, r.value, syncID, workerID, limit, now, now + lockFor)
                && (forall t: JobTable
                      | t.jobs == old(jobs) && NothingBehind(old(jobs), order, old(nextIndex), syncID, now) ::
                      && r.value == BatchOf(t, syncID, workerID, limit, now, now + lockFor)
                      && jobs == AfterBatch(t, syncID, workerID, limit, now, now + lockFor).jobs)
    {
      hide CursorValid; hide Walked; hide Taking; hide FullBatch; hide NothingBehind; hide Lists; hide ClaimRanks;
      hide AfterBatch; hide BatchOf; hide TerminalIDs;
      if cancelled { return Err(ContextDone); }
      if lockFor <= 0 { return Err(InvalidLockFor); }
      if limit <= 0 { return Ok([]); }
      claimCalls := claimCalls + 1;
      var until := now + lockFor;
      ghost var before, start := jobs, nextIndex;
      ghost var walked: seq<Rank>, taken: seq<Rank>;
      var claimed: seq<SyncJob>;
      claimed, walked := WalkCursor(syncID, workerID, limit, now, until);
      CursorMoves(seeds, before, jobs, order, start, nextIndex, walked, claimed, syncID, workerID, now, until);
      ghost var middle := jobs;
      claimed, taken := ScanRest(before, walked, claimed, syncID, workerID, limit, now, until);
      BatchOutcome(seeds, before, middle, jobs, order, start, nextIndex, walked, taken, claimed, syncID, workerID,
                   limit, now, until);
      return Ok(claimed);
    }

    /** The cursor passes each job once and claims those it can. */
    method WalkCursor(syncID: string, workerID: string, limit: int, now: Time, until: Time)
      returns (claimed: seq<SyncJob>, ghost taken: seq<Rank>)
      requires CursorValid(seeds, jobs, order, nextIndex) && limit > 0
      modifies this`jobs, this`nextIndex
      ensures Taking(old(jobs), jobs, taken, claimed, syncID, workerID, now, until)
      ensures Walked(old(jobs), order, old(nextIndex), nextIndex, taken, syncID, now)
      ensures |taken| == |claimed| <= limit && (|claimed| == limit || nextIndex == |order|)
    {
      hide Walked; hide Taking; hide Claimable; hide Claimed; hide Before; hide CursorValid; hide Ready;
      claimed, taken := [], [];
      ghost var before, start := jobs, nextIndex;
      WalkStarts(seeds, before, order, start, syncID, workerID, now, until);
      while |claimed| < limit && nextIndex < |order|
        invariant Taking(before, jobs, taken, claimed, syncID, workerID, now, until) && |taken| == |claimed| <= limit
        invariant nextIndex <= |order| && Walked(before, order, start, nextIndex, taken, syncID, now)
        decreases |order| - nextIndex
      {
        CursorIsFresh(seeds, before, order, start, nextIndex, taken, syncID, now);
        ghost var id, i, was := order[nextIndex].id, nextIndex, jobs;
        NotYetTaken(seeds, before, was, order, start, taken, claimed, id, syncID, workerID, now, until);
        nextIndex := nextIndex + 1;
        var copy := ClaimLocked(order[nextIndex - 1].id, syncID, workerID, now, until);
        if copy.Some? {
          TakeOne(before, was, taken, claimed, syncID, workerID, now, until, id);
          WalkOne(before, order, start, i, taken, syncID, now, taken + [order[i]]);
          claimed := claimed + [copy.value];
          taken := taken + [order[i]];
        } else {
          WalkOne(before, order, start, i, taken, syncID, now, taken);
        }
      }
    }

    /** The fallback: the sorted scan of whatever can be claimed, up to the limit. */
    method ScanRest(ghost before: map<string, SyncJob>, ghost walked: seq<Rank>, first: seq<SyncJob>, syncID: string,
                    workerID: string, limit: int, now: Time, until: Time)
      returns (claimed: seq<SyncJob>, ghost taken: seq<Rank>)
      requires Keyed(before) && now < until && |walked| == |first| <= limit
      requires Taking(before, jobs, walked, first, syncID, workerID, now, until)
      modifies this`jobs
      ensures |first| == limit ==> jobs == old(jobs)
      ensures Taking(before, jobs, taken, claimed, syncID, workerID, now, until)
      ensures walked <= taken && |taken| == Min(|ClaimRanks(before, syncID, now)|, limit)
    {
      hide Taking; hide Claimable; hide Claimed; hide Before; hide Ready; hide ClaimRanks; hide Lists; hide Lease;
      hide Ids; hide Elements; hide Sorted; hide ClaimRank; hide Keyed; hide AllIn;
      claimed, taken := first, walked;
      ghost var start := jobs;
      RemainingRanks(before, jobs, walked, first, syncID, workerID, now, until);
      RestCount(before, start, walked, syncID, now);
      if |claimed| < limit {
        var ids := JobStore.ClaimableJobIDs(jobs, now, syncID);
        var k := 0;
        while k < |ids| && |claimed| < limit
          invariant 0 <= k <= |ids| && taken == walked + ids[..k] && |taken| == |claimed| <= limit
          invariant Taking(before, jobs, taken, claimed, syncID, workerID, now, until)
        {
          ghost var was := jobs;
          ScanOne(before, start, was, walked, first, ids, k, taken, claimed, syncID, workerID, now, until);
          var copy := ClaimLocked(ids[k].id, syncID, workerID, now, until);
          claimed := claimed + [copy.value];
          taken := taken + [ids[k]];
          k := k + 1;
        }
      }
    }

    /** `MarkSynced`, `MarkRetrying`, `RequeueClaimed` and `MarkDead`, which read the clock twice: for the lease
        check and for the change. Only a job that was not terminal is counted. */
    method UpdateOwned(cancelled: bool, jobID: string, workerID: string, u: LeaseUpdate, checkedAt: Time, now: Time)
      returns (err: Option<Error>)
      requires Valid() && !u.RenewLease?
      modifies this`jobs, this`completed
      ensures Valid()
      ensures err == if cancelled then Some(ContextDone)
                     else if jobID !in old(jobs) then Some(JobNotFound)
                     else if !Owns(old(jobs)[jobID], workerID, checkedAt) then Some(JobLeaseNotOwned)
                     else None
      ensures jobs == if err.Some? then old(jobs) else old(jobs)[jobID := Updated(old(jobs)[jobID], u, now)]
      ensures completed == old(completed) + (if err.None? && (u.MarkSynced? || u.MarkDead?) then 1 else 0)
    {
      hide CursorValid; hide TerminalIDs;
      if cancelled { return Some(ContextDone); }
      if jobID !in jobs { return Some(JobNotFound); }
      if !LeaseOwned(jobs[jobID], checkedAt, workerID) { return Some(JobLeaseNotOwned); }
      var job := Updated(jobs[jobID], u, now);
      var wasTerminal := Terminal(jobs[jobID]);
      FinishOne(jobs, jobID, job);
      OwnedIsBehind(seeds, jobs, order, nextIndex, jobID, job);
      jobs := jobs[jobID := job];
      if !wasTerminal && (u.MarkSynced? || u.MarkDead?) {
        completed := completed + 1;
      }
      return None;
    }

    /** `RenewLease` reads the clock for the check, for the new end and for the update time. */
    method RenewLease(cancelled: bool, jobID: string, workerID: string, lockFor: int, checkedAt: Time, from: Time,
                      now: Time)
      returns (err: Option<Error>)
      requires Valid()
      modifies this`jobs
      ensures Valid()
      ensures err == if cancelled then Some(ContextDone)
                     else if lockFor <= 0 then Some(InvalidLockFor)
                     else if jobID !in old(jobs) then Some(JobNotFound)
                     else if !Owns(old(jobs)[jobID], workerID, checkedAt) then Some(JobLeaseNotOwned)
                     else None
      ensures jobs == if err.Some? then old(jobs)
                      else old(jobs)[jobID := old(jobs)[jobID].(lockedUntil := Some(from + lockFor), updatedAt := now)]
    {
      hide CursorValid; hide TerminalIDs;
      if cancelled { return Some(ContextDone); }
      if lockFor <= 0 { return Some(InvalidLockFor); }
      if jobID !in jobs { return Some(JobNotFound); }
      if !LeaseOwned(jobs[jobID], checkedAt, workerID) { return Some(JobLeaseNotOwned); }
      var job := jobs[jobID].(lockedUntil := Some(from + lockFor), updatedAt := now);
      FinishOne(jobs, jobID, job);
      OwnedIsBehind(seeds, jobs, order, nextIndex, jobID, job);
      jobs := jobs[jobID := job];
      return None;
    }

    /** Counts by state. What is synced or dead is what `completed` counted. */
    method Statistics() returns (stats: Stats)
      requires Valid()
      ensures Counts(jobs, jobs.Keys, stats) && stats.claimCalls == claimCalls
      ensures stats.synced + stats.dead == completed
    {
      hide CursorValid; hide TerminalIDs; hide InState; hide Ghosts;
      stats := Stats(0, 0, 0, 0, claimCalls);
      CountNone(jobs);
      var rest := jobs.Keys;
      assert jobs.Keys - rest == {};
      while rest != {}
        invariant rest <= jobs.Keys && stats.claimCalls == claimCalls
        invariant Counts(jobs, jobs.Keys - rest, stats)
        decreases rest
      {
        var id :| id in rest;
        var done := jobs.Keys - rest;
        CountOne(jobs, done, stats, id);
        if jobs[id].state.Synced? {
          stats := stats.(synced := stats.synced + 1, ghosts := stats.ghosts + if jobs[id].ghostDetected then 1 else 0);
        } else if jobs[id].state.Dead? {
          stats := stats.(dead := stats.dead + 1);
        } else if jobs[id].state.Retrying? {
          stats := stats.(retrying := stats.retrying + 1);
        }
        rest := rest - {id};
        assert jobs.Keys - rest == done + {id};
      }
      assert jobs.Keys - rest == jobs.Keys;
      TerminalsAreSyncedOrDead(jobs);
    }

    /** One call of a worker on the store. */
    method Perform(call: StoreCall)
      requires Valid()
      modifies this
      ensures Valid() && jobs.Keys == old(jobs).Keys
      ensures forall id | id in old(jobs) && Terminal(old(jobs)[id]) :: jobs[id] == old(jobs)[id]
    {
      hide CursorValid; hide TerminalIDs; hide NothingBehind;
      match call
      case Claim(cancelled, syncID, workerID, limit, lockFor, now) =>
        var _ := ClaimNextBatch(cancelled, syncID, workerID, limit, lockFor, now);
      case Renew(cancelled, jobID, workerID, lockFor, checkedAt, from, now) =>
        var _ := RenewLease(cancelled, jobID, workerID, lockFor, checkedAt, from, now);
      case Mark(cancelled, jobID, workerID, u, checkedAt, now) =>
        if !u.RenewLease? {
          var _ := UpdateOwned(cancelled, jobID, workerID, u, checkedAt, now);
        }
    }
  }

  /** What a worker can call. */
  datatype StoreCall =
    | Claim(cancelled: bool, syncID: string, workerID: string, limit: int, lockFor: int, now: Time)
    | Renew(cancelled: bool, jobID: string, workerID: string, lockFor: int, checkedAt: Time, from: Time, now: Time)
    | Mark(cancelled: bool, jobID: string, workerID: string, update: LeaseUpdate, checkedAt: Time, now: Time)

  /** One `RunOnce`: the calls its routines make, in the order the store's mutex admits them, and whether it
      returns an error. */
  datatype WorkerCycle = WorkerCycle(calls: seq<StoreCall>, fails: bool)

  /** `drainWorker`: cycles until the counter has reached the number of jobs. It succeeds exactly when every
      job is synced or dead. */
  method DrainWorker(store: BenchJobStore, totalJobs: nat, cycles: seq<WorkerCycle>) returns (ran: nat, ok: bool)
    requires store.Valid() && totalJobs == |store.jobs| && |cycles| == totalJobs + 100
    modifies store
    ensures store.Valid() && ran <= |cycles| && store.jobs.Keys == old(store.jobs).Keys
    ensures ok ==> forall id | id in store.jobs :: Terminal(store.jobs[id])
    ensures !ok ==> (ran > 0 && cycles[ran - 1].fails) || exists id :: id in store.jobs && !Terminal(store.jobs[id])
  {
    hide CursorValid; hide TerminalIDs;
    for cycle := 0 to |cycles|
      invariant store.Valid() && store.jobs.Keys == old(store.jobs).Keys
      invariant cycle > 0 ==> store.completed < totalJobs
    {
      var calls := cycles[cycle].calls;
      for i := 0 to |calls|
        invariant store.Valid() && store.jobs.Keys == old(store.jobs).Keys
      {
        store.Perform(calls[i]);
      }
      if cycles[cycle].fails { return cycle + 1, false; }
      AllFinished(store.jobs);
      if store.completed >= totalJobs { return cycle + 1, true; }
    }
    AllFinished(store.jobs);
    return |cycles|, false;
  }
}
