/** What the delta store keeps and lists, in the fields of the deltas. */
module DeltaFields {
  import opened Types
  import opened Ranks
  import opened Names
  import opened Dedup
  import opened Deltas

  // ----- Enqueue -----

  /** A delta as it is stored: all the producer gave, except for the id, hash and dedup key, which the store
      gives, and for the state and instants the producer left unset. */
  ghost predicate StoredAs(d: Delta, id: string, hash: string, now: Time, stored: Delta) {
    && stored.id == id && stored.syncID == d.syncID && stored.origin == d.origin
    && stored.projectionType == d.projectionType && stored.projectionKey == d.projectionKey
    && stored.dedupWindow == d.dedupWindow && stored.metadata == d.metadata && stored.dispatchedAt == d.dispatchedAt
    && stored.projectionKeyHash == hash
    && stored.dedupKey == (if d.dedupWindow == "" then NoKey
                           else ComputeDedupKey(d.dedupWindow, d.projectionType, hash))
    && stored.state == (if d.state == DeltaUnset then DeltaPending else d.state)
    && stored.occurredAt == (if d.occurredAt == 0 then now else d.occurredAt)
    && stored.createdAt == (if d.createdAt == 0 then now else d.createdAt)
  }

  /** The stored delta carries the dedup key the given one would get. */
  ghost predicate Duplicates(stored: Delta, d: Delta, hash: string) {
    d.dedupWindow != "" && stored.dedupKey == ComputeDedupKey(d.dedupWindow, d.projectionType, hash)
  }

  /** An accepted delta: a stored delta with its key is returned, and nothing changes; without one, it is stored
      under the next number, and returned as stored. */
  ghost predicate StoredOnce(before: DeltaTable, after: DeltaTable, d: Delta, hash: string, now: Time, r: Delta) {
    if exists id :: id in before.deltas && Duplicates(before.deltas[id], d, hash)
    then after == before && r.id in before.deltas && r == before.deltas[r.id] && Duplicates(r, d, hash)
    else
      && StoredAs(d, "delta-" + Decimal(before.nextID + 1), hash, now, r)
      && r.id !in before.deltas && after.deltas == before.deltas[r.id := r] && after.nextID == before.nextID + 1
  }

  lemma StampedIsStored(d: Delta, id: string, hash: string, now: Time)
    ensures StoredAs(d, id, hash, now, Stamped(d, id, hash, KeyOf(d, hash), now))
  {
  }

  lemma KeyIsCarried(t: DeltaTable, key: DedupKey)
    requires Indexed(t) && key != NoKey
    ensures key in t.dedup <==> exists id :: id in t.deltas && t.deltas[id].dedupKey == key
  {
  }

  lemma EnqueueByFields(t: DeltaTable, d: Delta, now: Time)
    requires DeltasValid(t)
    ensures d.id != "" ==> Enqueued(t, d, now) == Err(DeltaIDProvided)
    ensures d.id == "" && t.config.keyHash(d.projectionKey) == None ==> Enqueued(t, d, now) == Err(KeyNotEncodable)
    ensures d.id == "" && t.config.keyHash(d.projectionKey) != None ==>
              && Enqueued(t, d, now).Ok?
              && StoredOnce(t, AfterEnqueue(t, d, now), d, t.config.keyHash(d.projectionKey).value, now,
                            Enqueued(t, d, now).value)
  {
    hide Stamped; hide StoredAs; hide ComputeDedupKey; hide FreshAbove; hide FirstFree;
    NextIsFresh(t);
    if d.id == "" && t.config.keyHash(d.projectionKey).Some? {
      var hash := t.config.keyHash(d.projectionKey).value;
      if d.dedupWindow != "" { KeyIsCarried(t, KeyOf(d, hash)); }
      StampedIsStored(d, Name(DELTA, t.nextID + 1), hash, now);
    }
  }

  // ----- EnqueueBatch -----

  /** The hash the store gives a delta. */
  function HashOf(t: DeltaTable, d: Delta): string {
    match t.config.keyHash(d.projectionKey)
    case None => ""
    case Some(hash) => hash
  }

  /** Neither a stored delta nor an earlier one of the batch has the dedup key of delta i. */
  ghost predicate IsNew(t: DeltaTable, ds: seq<Delta>, i: int)
    requires 0 <= i < |ds|
  {
    && (forall id | id in t.deltas :: !Duplicates(t.deltas[id], ds[i], HashOf(t, ds[i])))
    && (forall k | 0 <= k < i :: ComputeDedupKey(ds[k].dedupWindow, ds[k].projectionType, HashOf(t, ds[k]))
                              != ComputeDedupKey(ds[i].dedupWindow, ds[i].projectionType, HashOf(t, ds[i])))
  }

  ghost function NewAmong(t: DeltaTable, ds: seq<Delta>, n: int): set<int>
    requires n <= |ds|
  {
    set i | 0 <= i < n && IsNew(t, ds, i)
  }

  /** The id of the i-th delta of a batch: the new ones are numbered in their order. */
  ghost function BatchID(t: DeltaTable, ds: seq<Delta>, i: int): string
    requires i <= |ds|
  {
    "delta-" + Decimal(t.nextID + 1 + |NewAmong(t, ds, i)|)
  }

  /** The first n deltas of a batch are stored: each new one once, as given, and no other. */
  ghost predicate NewAreStored(before: DeltaTable, after: DeltaTable, ds: seq<Delta>, n: int, now: Time)
    requires n <= |ds|
  {
    && after.nextID == before.nextID + |NewAmong(before, ds, n)|
    && (forall id | id in before.deltas :: id in after.deltas && after.deltas[id] == before.deltas[id])
    && (forall i | 0 <= i < n && IsNew(before, ds, i) ::
          && BatchID(before, ds, i) !in before.deltas && BatchID(before, ds, i) in after.deltas
          && StoredAs(ds[i], BatchID(before, ds, i), HashOf(before, ds[i]), now, after.deltas[BatchID(before, ds, i)]))
    && (forall id | id in after.deltas && id !in before.deltas ::
          exists i :: 0 <= i < n && IsNew(before, ds, i) && id == BatchID(before, ds, i))
  }

  lemma NewIsUnknown(t: DeltaTable, ds: seq<Delta>, i: nat, now: Time)
    requires DeltasValid(t) && AllPreparable(t, ds) && Windowed(ds) && i < |ds| && AllPreparable(t, ds[..i])
    ensures IsNew(t, ds, i) <==> BatchKey(t, ds[i]) !in AfterBatch(t, ds[..i], now).dedup
  {
    hide ComputeDedupKey; hide AfterBatch; hide FreshAbove;
    BatchInsertsNewKeys(t, ds[..i], now);
    KeyIsCarried(t, BatchKey(t, ds[i]));
    assert forall k | 0 <= k < i :: ds[..i][k] == ds[k] && BatchKey(t, ds[k]) in BatchKeys(t, ds[..i]);
  }

  lemma OneMoreNew(t: DeltaTable, ds: seq<Delta>, n: nat)
    requires n < |ds|
    ensures |NewAmong(t, ds, n + 1)| == |NewAmong(t, ds, n)| + if IsNew(t, ds, n) then 1 else 0
  {
    hide IsNew;
    assert NewAmong(t, ds, n + 1) == NewAmong(t, ds, n) + if IsNew(t, ds, n) then {n} else {};
  }

  lemma InsertByFields(t: DeltaTable, d: Delta, now: Time)
    requires DeltasValid(t) && Preparable(t, d) && d.dedupWindow != ""
    ensures BatchKey(t, d) in t.dedup ==> AfterInsert(t, d, now) == t
    ensures BatchKey(t, d) !in t.dedup ==>
              var t', id := AfterInsert(t, d, now), "delta-" + Decimal(t.nextID + 1);
              && t'.nextID == t.nextID + 1 && id !in t.deltas && t'.deltas.Keys == t.deltas.Keys + {id}
              && StoredAs(d, id, HashOf(t, d), now, t'.deltas[id])
              && (forall other | other in t.deltas :: t'.deltas[other] == t.deltas[other])
  {
    hide ComputeDedupKey; hide StoredAs; hide Stamped; hide Indexed; hide Decimal;
    NextIsFresh(t);
    StampedIsStored(d, Name(DELTA, t.nextID + 1), HashOf(t, d), now);
  }

  lemma OneMoreStored(t: DeltaTable, t1: DeltaTable, ds: seq<Delta>, n: nat, now: Time)
    requires n < |ds| && NewAreStored(t, t1, ds, n, now) && DeltasValid(t1) && t1.config == t.config
    requires Preparable(t, ds[n]) && ds[n].dedupWindow != ""
    requires IsNew(t, ds, n) <==> BatchKey(t1, ds[n]) !in t1.dedup
    ensures NewAreStored(t, AfterInsert(t1, ds[n], now), ds, n + 1, now)
  {
    hide IsNew; hide StoredAs; hide DeltasValid; hide NewAmong; hide Decimal; hide BatchKey; hide AfterInsert;
    OneMoreNew(t, ds, n);
    InsertByFields(t1, ds[n], now);
    var t2 := AfterInsert(t1, ds[n], now);
    if IsNew(t, ds, n) {
      assert BatchID(t, ds, n) == "delta-" + Decimal(t1.nextID + 1);
    }
  }

  /** A batch in the fields of its deltas. */
  lemma {:induction false} BatchByFields(t: DeltaTable, ds: seq<Delta>, n: nat, now: Time)
    requires DeltasValid(t) && AllPreparable(t, ds) && Windowed(ds) && n <= |ds|
    ensures AllPreparable(t, ds[..n]) && DeltasValid(AfterBatch(t, ds[..n], now))
    ensures NewAreStored(t, AfterBatch(t, ds[..n], now), ds, n, now)
  {
    hide DeltasValid; hide NewAreStored; hide IsNew; hide BatchKey; hide AfterInsert;
    if n == 0 {
      NoneStored(t, ds, now);
    } else {
      BatchByFields(t, ds, n - 1, now);
      var d := ds[n - 1];
      assert ds[..n] == ds[..n - 1] + [d];
      SplitBatch(t, ds[..n - 1], [d], now);
      var t1 := AfterBatch(t, ds[..n - 1], now);
      NewIsUnknown(t, ds, n - 1, now);
      SameKey(t, t1, d);
      OneMoreStored(t, t1, ds, n - 1, now);
      InsertAddsKey(t1, d, now);
    }
  }

  lemma WholeBatchByFields(t: DeltaTable, ds: seq<Delta>, now: Time)
    requires DeltasValid(t) && AllPreparable(t, ds) && Windowed(ds)
    ensures DeltasValid(AfterBatch(t, ds, now)) && NewAreStored(t, AfterBatch(t, ds, now), ds, |ds|, now)
    ensures AfterBatch(t, ds, now).nextID == t.nextID + |NewAmong(t, ds, |ds|)|
  {
    hide DeltasValid; hide StoredAs; hide IsNew; hide AfterBatch; hide Windowed;
    assert ds[..|ds|] == ds;
    BatchByFields(t, ds, |ds|, now);
  }

  lemma SameKey(t: DeltaTable, t1: DeltaTable, d: Delta)
    requires t1.config == t.config && Preparable(t, d)
    ensures BatchKey(t1, d) == BatchKey(t, d)
  {
  }

  lemma NoneStored(t: DeltaTable, ds: seq<Delta>, now: Time)
    ensures NewAreStored(t, t, ds, 0, now)
  {
    hide IsNew;
    assert NewAmong(t, ds, 0) == {};
  }

  // ----- The order of the outbox -----

  /** The earlier occurrence first, then the earlier creation, then the smaller id. */
  ghost predicate OccurredBefore(a: Delta, b: Delta) {
    || a.occurredAt < b.occurredAt
    || (a.occurredAt == b.occurredAt && a.createdAt < b.createdAt)
    || (a.occurredAt == b.occurredAt && a.createdAt == b.createdAt && TextBefore(a.id, b.id))
  }

  lemma PendingRankIsOccurrence(a: Delta, b: Delta)
    ensures Before(PendingRank(a), PendingRank(b)) <==> OccurredBefore(a, b)
  {
    TextLessIsLexicographic(a.id, b.id);
  }

  ghost function PendingIDs(deltas: map<string, Delta>, syncID: string): set<string> {
    set id | id in deltas && deltas[id].state == DeltaPending && deltas[id].syncID == syncID
  }

  /** The first pending deltas in the order of their occurrence, up to the limit: these ids and no other. */
  ghost predicate OldestFirst(deltas: map<string, Delta>, ids: seq<string>, syncID: string, limit: int) {
    var pending := PendingIDs(deltas, syncID);
    && |ids| == Min(|pending|, if limit < 0 then 0 else limit)
    && (forall i | 0 <= i < |ids| :: ids[i] in pending)
    && (forall i, k | 0 <= i < k < |ids| :: OccurredBefore(deltas[ids[i]], deltas[ids[k]]))
    && (forall id, i | id in pending && id !in ids && 0 <= i < |ids| :: OccurredBefore(deltas[ids[i]], deltas[id]))
  }

  function IdsOf(q: seq<Rank>): (ids: seq<string>) {
    seq(|q|, i requires 0 <= i < |q| => q[i].id)
  }

  function DeltaIDs(ds: seq<Delta>): (ids: seq<string>) {
    seq(|ds|, i requires 0 <= i < |ds| => ds[i].id)
  }

  lemma PendingAreRanked(deltas: map<string, Delta>, syncID: string)
    requires DeltasKeyed(deltas)
    ensures |PendingRanks(deltas, syncID)| == |PendingIDs(deltas, syncID)|
  {
    var S, pending := PendingRanks(deltas, syncID), PendingIDs(deltas, syncID);
    forall id | id in pending ensures exists r :: r in S && r.id == id {
      assert PendingRank(deltas[id]) in S;
    }
    OneRankEach(pending, S);
  }

  /** The front of the pending queue in the fields of the deltas. */
  lemma QueueByFields(deltas: map<string, Delta>, syncID: string, limit: nat)
    requires DeltasKeyed(deltas)
    ensures OldestFirst(deltas, IdsOf(Take(PendingQueue(deltas, syncID), limit)), syncID, limit)
    ensures |PendingQueue(deltas, syncID)| == |PendingIDs(deltas, syncID)|
  {
    hide Before; hide OccurredBefore; hide Sorted; hide Ascending; hide Take; hide Elements; hide ListsDeltas;
    PendingAreRanked(deltas, syncID);
    TakenAreLeast(PendingRanks(deltas, syncID), limit);
    RanksAreDeltas(deltas, PendingRanks(deltas, syncID), PendingIDs(deltas, syncID),
                   Take(PendingQueue(deltas, syncID), limit));
  }

  lemma RanksAreDeltas(deltas: map<string, Delta>, S: set<Rank>, pending: set<string>, q: seq<Rank>)
    requires DeltasKeyed(deltas) && pending <= deltas.Keys && S == set id | id in pending :: PendingRank(deltas[id])
    requires Ascending(q) && Elements(q) <= S
    requires forall r, i | r in S && r !in Elements(q) && 0 <= i < |q| :: Before(q[i], r)
    ensures forall i | 0 <= i < |q| :: q[i].id in pending && PendingRank(deltas[q[i].id]) == q[i]
    ensures forall i, k | 0 <= i < k < |q| :: OccurredBefore(deltas[q[i].id], deltas[q[k].id])
    ensures forall id, i | id in pending && id !in IdsOf(q) && 0 <= i < |q| ::
              OccurredBefore(deltas[q[i].id], deltas[id])
  {
    hide Before; hide OccurredBefore;
    forall i | 0 <= i < |q| ensures q[i].id in pending && PendingRank(deltas[q[i].id]) == q[i] {
      assert q[i] in Elements(q);
    }
    forall i, k | 0 <= i < k < |q| ensures OccurredBefore(deltas[q[i].id], deltas[q[k].id]) {
      PendingRankIsOccurrence(deltas[q[i].id], deltas[q[k].id]);
    }
    forall id, i | id in pending && id !in IdsOf(q) && 0 <= i < |q|
      ensures OccurredBefore(deltas[q[i].id], deltas[id])
    {
      assert forall n | 0 <= n < |q| :: IdsOf(q)[n] == q[n].id;
      assert PendingRank(deltas[id]) in S && PendingRank(deltas[id]) !in Elements(q);
      PendingRankIsOccurrence(deltas[q[i].id], deltas[id]);
    }
  }
}
