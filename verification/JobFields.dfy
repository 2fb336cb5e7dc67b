/** What the job store promises, in the fields of the jobs: who can be claimed, in which order, with which lease;
    what a lease query lists; what a create, a lease mutator and an operator action leave. */
module JobFields {
  import opened Types
  import opened Ranks
  import opened Jobs
  import C = Claims

  // ----- Claims -----

  /** The earlier due time first, then the earlier creation, then the smaller id. */
  ghost predicate DueBefore(a: SyncJob, b: SyncJob) {
    || a.availableAt < b.availableAt
    || (a.availableAt == b.availableAt && a.createdAt < b.createdAt)
    || (a.availableAt == b.availableAt && a.createdAt == b.createdAt && TextBefore(a.id, b.id))
  }

  lemma ClaimRankIsDueOrder(a: SyncJob, b: SyncJob)
    ensures Before(ClaimRank(a), ClaimRank(b)) <==> DueBefore(a, b)
  {
    TextLessIsLexicographic(a.id, b.id);
  }

  /** A waiting job that is due, or a processing one whose lease is over or was never dated. */
  ghost predicate OpenTo(j: SyncJob, syncID: string, now: Time) {
    && j.syncID == syncID
    && (((j.state == Pending || j.state == Retrying) && j.availableAt <= now)
        || (j.state == Processing && (j.lockedUntil == None || j.lockedUntil.value <= now)))
  }

  lemma ClaimableIsOpen(j: SyncJob, syncID: string, now: Time)
    ensures Claimable(j, now, syncID) <==> OpenTo(j, syncID, now)
  {
  }

  ghost function OpenIDs(jobs: map<string, SyncJob>, syncID: string, now: Time): set<string> {
    set id | id in jobs && OpenTo(jobs[id], syncID, now)
  }

  /** A claim of one job: none if none is open; else the first open one in due order, leased as returned. */
  ghost predicate FirstIsLeased(before: map<string, SyncJob>, after: map<string, SyncJob>, r: Option<SyncJob>,
                                syncID: string, workerID: string, now: Time, until: Time) {
    match r
    case None => OpenIDs(before, syncID, now) == {} && after == before
    case Some(j) =>
      && j.id in before && OpenTo(before[j.id], syncID, now)
      && j == before[j.id].(state := Processing, lockedBy := Some(workerID), lockedUntil := Some(until),
                            updatedAt := now)
      && after == before[j.id := j]
      && (forall id | id in before && id != j.id && OpenTo(before[id], syncID, now) :: DueBefore(j, before[id]))
  }

  /** A claim of a batch: as many open jobs as there are up to the limit, in due order, each leased as returned;
      every open job left behind is due after all of them, and no other job changes. */
  ghost predicate BatchIsLeased(before: map<string, SyncJob>, after: map<string, SyncJob>, claimed: seq<SyncJob>,
                                syncID: string, workerID: string, limit: int, now: Time, until: Time) {
    && |claimed| == Min(|OpenIDs(before, syncID, now)|, limit) && after.Keys == before.Keys
    && (forall i | 0 <= i < |claimed| ::
          && claimed[i].id in before && OpenTo(before[claimed[i].id], syncID, now)
          && claimed[i] == before[claimed[i].id].(state := Processing, lockedBy := Some(workerID),
                                                  lockedUntil := Some(until), updatedAt := now)
          && after[claimed[i].id] == claimed[i])
    && (forall i, k | 0 <= i < k < |claimed| :: DueBefore(claimed[i], claimed[k]))
    && (forall id | id in before && !InBatch(claimed, id) ::
          && after[id] == before[id]
          && (OpenTo(before[id], syncID, now) ==> forall i | 0 <= i < |claimed| :: DueBefore(claimed[i], before[id])))
  }

  lemma OpenAreRanked(jobs: map<string, SyncJob>, syncID: string, now: Time)
    requires Keyed(jobs)
    ensures |ClaimRanks(jobs, syncID, now)| == |OpenIDs(jobs, syncID, now)|
  {
    hide OpenTo; hide Claimable;
    forall id | id in jobs ensures Claimable(jobs[id], now, syncID) <==> OpenTo(jobs[id], syncID, now) {
      ClaimableIsOpen(jobs[id], syncID, now);
    }
    var ids, S := OpenIDs(jobs, syncID, now), ClaimRanks(jobs, syncID, now);
    forall id | id in ids ensures exists r :: r in S && r.id == id {
      assert ClaimRank(jobs[id]) in S;
    }
    OneRankEach(ids, S);
  }

  /** A listing of the open jobs: every one, in due order. */
  ghost predicate InDueOrder(jobs: map<string, SyncJob>, q: seq<Rank>, syncID: string, now: Time) {
    && (forall i | 0 <= i < |q| :: q[i].id in jobs && OpenTo(jobs[q[i].id], syncID, now))
    && (forall id | id in jobs && OpenTo(jobs[id], syncID, now) :: exists i :: 0 <= i < |q| && q[i].id == id)
    && (forall i, k | 0 <= i < k < |q| :: DueBefore(jobs[q[i].id], jobs[q[k].id]))
  }

  lemma QueueByFields(jobs: map<string, SyncJob>, syncID: string, now: Time)
    requires Keyed(jobs)
    ensures InDueOrder(jobs, ClaimQueue(jobs, syncID, now), syncID, now)
  {
    hide Before; hide DueBefore; hide OpenTo; hide Claimable; hide Sorted;
    var q := ClaimQueue(jobs, syncID, now);
    QueueLists(jobs, syncID, now);
    forall i | 0 <= i < |q| ensures OpenTo(jobs[q[i].id], syncID, now) {
      ClaimableIsOpen(jobs[q[i].id], syncID, now);
    }
    forall id | id in jobs && OpenTo(jobs[id], syncID, now) ensures exists i :: 0 <= i < |q| && q[i].id == id {
      ClaimableIsOpen(jobs[id], syncID, now);
      var i := QueuePosition(jobs, syncID, now, id);
    }
    forall i, k | 0 <= i < k < |q| ensures DueBefore(jobs[q[i].id], jobs[q[k].id]) {
      ClaimRankIsDueOrder(jobs[q[i].id], jobs[q[k].id]);
    }
  }

  /** The batch claim in the fields of the jobs. */
  lemma BatchByFields(t: JobTable, syncID: string, workerID: string, limit: nat, now: Time, until: Time)
    requires Keyed(t.jobs)
    ensures BatchIsLeased(t.jobs, AfterBatch(t, syncID, workerID, limit, now, until).jobs,
                          BatchOf(t, syncID, workerID, limit, now, until), syncID, workerID, limit, now, until)
  {
    hide BatchOf; hide AfterBatch; hide Before; hide DueBefore; hide OpenTo; hide Claimable; hide OpenIDs;
    hide ClaimRanks;
    var claimed, after := BatchOf(t, syncID, workerID, limit, now, until),
                          AfterBatch(t, syncID, workerID, limit, now, until).jobs;
    C.BatchIsAscending(t, syncID, workerID, limit, now, until);
    C.BatchIsLeased(t, syncID, workerID, limit, now, until);
    OpenAreRanked(t.jobs, syncID, now);
    forall id | id in t.jobs ensures Claimable(t.jobs[id], now, syncID) <==> OpenTo(t.jobs[id], syncID, now) {
      ClaimableIsOpen(t.jobs[id], syncID, now);
    }
    forall i, k | 0 <= i < k < |claimed| ensures DueBefore(claimed[i], claimed[k]) {
      ClaimRankIsDueOrder(claimed[i], claimed[k]);
    }
    forall id | id in t.jobs && !InBatch(claimed, id)
      ensures after[id] == t.jobs[id]
      ensures OpenTo(t.jobs[id], syncID, now) ==> forall i | 0 <= i < |claimed| :: DueBefore(claimed[i], t.jobs[id])
    {
      C.BatchTakesLeast(t, syncID, workerID, limit, now, until, id);
      forall i | 0 <= i < |claimed|
        ensures DueBefore(claimed[i], t.jobs[id]) <==> Before(ClaimRank(claimed[i]), ClaimRank(t.jobs[id]))
      {
        ClaimRankIsDueOrder(claimed[i], t.jobs[id]);
      }
    }
  }

  /** The single claim in the fields of the jobs. */
  lemma ClaimByFields(t: JobTable, syncID: string, workerID: string, now: Time, until: Time)
    requires Keyed(t.jobs)
    ensures FirstIsLeased(t.jobs, AfterClaim(t, syncID, workerID, now, until).jobs,
                          NextJob(t, syncID, workerID, now, until), syncID, workerID, now, until)
  {
    hide Before; hide DueBefore; hide OpenTo; hide Claimable; hide Sorted;
    QueueLists(t.jobs, syncID, now);
    var q := ClaimQueue(t.jobs, syncID, now);
    forall id | id in t.jobs
      ensures Claimable(t.jobs[id], now, syncID) <==> OpenTo(t.jobs[id], syncID, now)
      ensures OpenTo(t.jobs[id], syncID, now) ==>
                q != [] && (id == q[0].id || DueBefore(t.jobs[q[0].id], t.jobs[id]))
    {
      ClaimableIsOpen(t.jobs[id], syncID, now);
      if Claimable(t.jobs[id], now, syncID) {
        var i := QueuePosition(t.jobs, syncID, now, id);
        ClaimRankIsDueOrder(t.jobs[q[0].id], t.jobs[id]);
      }
    }
    if q != [] { SameOrderWhenLeased(t.jobs[q[0].id], workerID, now, until); }
  }

  lemma SameOrderWhenLeased(j: SyncJob, workerID: string, now: Time, until: Time)
    ensures forall other :: DueBefore(Claimed(j, workerID, now, until), other) <==> DueBefore(j, other)
  {
  }

  // ----- Lease queries -----

  /** An undated lease first, then the lease that ends earlier, then the earlier update, then the smaller id. */
  ghost predicate LeaseBefore(a: SyncJob, b: SyncJob) {
    || (a.lockedUntil == None && b.lockedUntil != None)
    || (a.lockedUntil != None && b.lockedUntil != None && a.lockedUntil.value < b.lockedUntil.value)
    || (a.lockedUntil == b.lockedUntil && a.updatedAt < b.updatedAt)
    || (a.lockedUntil == b.lockedUntil && a.updatedAt == b.updatedAt && TextBefore(a.id, b.id))
  }

  lemma LeaseRankIsLeaseOrder(a: SyncJob, b: SyncJob)
    ensures Before(LeaseRank(a), LeaseRank(b)) <==> LeaseBefore(a, b)
  {
    TextLessIsLexicographic(a.id, b.id);
  }

  ghost function ProcessingIDs(jobs: map<string, SyncJob>, syncID: string): set<string> {
    set id | id in jobs && jobs[id].state == Processing && (syncID == "" || jobs[id].syncID == syncID)
  }

  ghost function ActiveIDs(jobs: map<string, SyncJob>, syncID: string, now: Time): set<string> {
    set id | id in ProcessingIDs(jobs, syncID) && jobs[id].lockedUntil != None && now < jobs[id].lockedUntil.value
  }

  ghost function ExpiredIDs(jobs: map<string, SyncJob>, syncID: string, now: Time): set<string> {
    ProcessingIDs(jobs, syncID) - ActiveIDs(jobs, syncID, now)
  }

  ghost function NearExpiryIDs(jobs: map<string, SyncJob>, syncID: string, now: Time, within: int): set<string> {
    set id | id in ActiveIDs(jobs, syncID, now) && jobs[id].lockedUntil.value <= now + within
  }

  /** Copies of the first of the given jobs in lease order, up to the limit. */
  ghost predicate FirstLeases(jobs: map<string, SyncJob>, ids: set<string>, limit: int, leases: seq<SyncJob>) {
    && |leases| == Min(|ids|, if limit < 0 then 0 else limit) && ids <= jobs.Keys
    && (forall i | 0 <= i < |leases| :: leases[i].id in ids && leases[i] == jobs[leases[i].id])
    && (forall i, k | 0 <= i < k < |leases| :: LeaseBefore(leases[i], leases[k]))
    && (forall id, i | id in ids && !InBatch(leases, id) && 0 <= i < |leases| :: LeaseBefore(leases[i], jobs[id]))
  }

  lemma LeasesByFields(jobs: map<string, SyncJob>, syncID: string, f: LeaseFilter, now: Time, limit: nat,
                       leases: seq<SyncJob>, ids: set<string>)
    requires Keyed(jobs) && ids == set id | id in jobs && Selected(jobs[id], syncID, f, now)
    requires var q := Take(Leases(jobs, syncID, f, now), limit);
      |leases| == |q| && forall i | 0 <= i < |q| :: q[i].id in jobs && leases[i] == jobs[q[i].id]
    ensures FirstLeases(jobs, ids, limit, leases)
  {
    hide Before; hide LeaseBefore; hide Selected; hide Sorted; hide Ascending; hide Take;
    var S := LeaseRanks(jobs, syncID, f, now);
    var q := Take(Leases(jobs, syncID, f, now), limit);
    LeasesList(jobs, syncID, f, now);
    TakenAreLeast(S, limit);
    forall id | id in ids ensures exists r :: r in S && r.id == id {
      assert LeaseRank(jobs[id]) in S;
    }
    OneRankEach(ids, S);
    RanksAreLeases(jobs, S, ids, q, leases);
  }

  lemma RanksAreLeases(jobs: map<string, SyncJob>, S: set<Rank>, ids: set<string>, q: seq<Rank>, leases: seq<SyncJob>)
    requires Keyed(jobs) && ids <= jobs.Keys && S == set id | id in ids :: LeaseRank(jobs[id])
    requires Ascending(q) && Elements(q) <= S && |leases| == |q|
    requires forall i | 0 <= i < |q| :: q[i].id in jobs && leases[i] == jobs[q[i].id]
    requires forall r, i | r in S && r !in Elements(q) && 0 <= i < |q| :: Before(q[i], r)
    ensures forall i | 0 <= i < |leases| :: leases[i].id in ids && leases[i] == jobs[leases[i].id]
    ensures forall i, k | 0 <= i < k < |leases| :: LeaseBefore(leases[i], leases[k])
    ensures forall id, i | id in ids && !InBatch(leases, id) && 0 <= i < |leases| :: LeaseBefore(leases[i], jobs[id])
  {
    hide Before; hide LeaseBefore;
    forall i | 0 <= i < |q| ensures q[i].id in ids && LeaseRank(leases[i]) == q[i] {
      assert q[i] in Elements(q);
    }
    forall i, k | 0 <= i < k < |leases| ensures LeaseBefore(leases[i], leases[k]) {
      LeaseRankIsLeaseOrder(leases[i], leases[k]);
    }
    forall id, i | id in ids && !InBatch(leases, id) && 0 <= i < |leases| ensures LeaseBefore(leases[i], jobs[id]) {
      assert forall n | 0 <= n < |q| :: leases[n].id == q[n].id;
      assert LeaseRank(jobs[id]) in S && LeaseRank(jobs[id]) !in Elements(q);
      LeaseRankIsLeaseOrder(leases[i], jobs[id]);
    }
  }

  // ----- Changes of one job -----

  /** The owner of a live lease. */
  ghost predicate Owns(j: SyncJob, workerID: string, now: Time) {
    j.state == Processing && j.lockedBy == Some(workerID) && j.lockedUntil != None && now < j.lockedUntil.value
  }

  /** A processing job whose lease is over, or was never dated. */
  ghost predicate Lapsed(j: SyncJob, now: Time) {
    j.state == Processing && (j.lockedUntil == None || j.lockedUntil.value <= now)
  }

  // ----- Audit reasons -----

  /** The bytes of a code point. */
  function Utf8(c: int): string
    requires 0 <= c < 0x11_0000
  {
    if c < 0x80 then [c as char]
    else if c < 0x800 then [(0xC0 + c / 0x40) as char, (0x80 + c % 0x40) as char]
    else if c < 0x1_0000 then
      [(0xE0 + c / 0x1000) as char, (0x80 + c / 0x40 % 0x40) as char, (0x80 + c % 0x40) as char]
    else [(0xF0 + c / 0x4_0000) as char, (0x80 + c / 0x1000 % 0x40) as char, (0x80 + c / 0x40 % 0x40) as char,
          (0x80 + c % 0x40) as char]
  }

  /** White space is that of Unicode. */
  lemma SpaceOfUnicode(c: int)
    requires 0 <= c < 0x11_0000
    ensures IsSpace(Utf8(c)) <==> c in {0x20, 0x85, 0xA0, 0x1680, 0x2028, 0x2029, 0x202F, 0x205F, 0x3000}
                                  || 0x9 <= c <= 0xD || 0x2000 <= c <= 0x200A
  {
  }

  lemma {:induction false} BlankThenBlank(a: string, b: string)
    requires Blank(a) && Blank(b)
    ensures Blank(a + b)
    decreases |a|
  {
    if a == "" {
      assert a + b == b;
    } else {
      var n := SpaceAhead(a);
      assert forall k | 0 <= k <= |a| :: (a + b)[..k] == a[..k];
      assert SpaceAhead(a + b) == n && (a + b)[n..] == a[n..] + b;
      BlankThenBlank(a[n..], b);
    }
  }

  lemma SpaceIsBlank(s: string)
    requires 1 <= |s| <= 3 && IsSpace(s)
    ensures Blank(s)
  {
    assert s[..|s|] == s;
  }

  /** Trimming cuts white space off both ends, and all of it: texts a and b of white space are what it cuts. */
  lemma {:induction false} TrimCutsBothEnds(s: string) returns (a: string, b: string)
    ensures s == a + TrimSpace(s) + b && Blank(a) && Blank(b)
    ensures var r := TrimSpace(s);
      forall k | 1 <= k <= 3 && k <= |r| :: !IsSpace(r[..k]) && !IsSpace(r[|r| - k..])
    decreases |s|
  {
    hide IsSpace; hide Blank; hide SpaceAhead; hide SpaceBehind;
    a, b := "", "";
    if SpaceAhead(s) > 0 {
      var n := SpaceAhead(s);
      var rest: string;
      rest, b := TrimCutsBothEnds(s[n..]);
      SpaceIsBlank(s[..n]);
      BlankThenBlank(s[..n], rest);
      a := s[..n] + rest;
      Regroup(s, n, rest, TrimSpace(s), b);
    } else if SpaceBehind(s) > 0 {
      var n := |s| - SpaceBehind(s);
      var rest: string;
      a, rest := TrimCutsBothEnds(s[..n]);
      SpaceIsBlank(s[n..]);
      BlankThenBlank(rest, s[n..]);
      b := rest + s[n..];
      RegroupBack(s, n, a, TrimSpace(s), rest);
    } else {
      NothingIsBlank();
      forall k | 1 <= k <= 3 && k <= |s| ensures !IsSpace(s[..k]) && !IsSpace(s[|s| - k..]) {
        NoSpaceAtEnds(s, k);
      }
      assert s == "" + s + "";
    }
  }

  lemma NoSpaceAtEnds(s: string, k: nat)
    requires SpaceAhead(s) == 0 && SpaceBehind(s) == 0 && 1 <= k <= 3 && k <= |s|
    ensures !IsSpace(s[..k]) && !IsSpace(s[|s| - k..])
  {
    hide IsSpace;
    if k == 1 {
    } else if k == 2 {
    } else {
    }
  }

  lemma Regroup(s: string, n: nat, a: string, r: string, b: string)
    requires n <= |s| && s[n..] == a + r + b
    ensures s == s[..n] + a + r + b
  {
    assert s == s[..n] + s[n..];
  }

  lemma RegroupBack(s: string, n: nat, a: string, r: string, b: string)
    requires n <= |s| && s[..n] == a + r + b
    ensures s == a + r + (b + s[n..])
  {
    assert s == s[..n] + s[n..];
  }

  lemma NothingIsBlank()
    ensures Blank("")
  {
  }
}
