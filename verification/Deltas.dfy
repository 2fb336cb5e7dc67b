/** The delta table (the outbox) and its transitions. `DeltaStore.dfy` refines them in place. */
module Deltas {
  import opened Types
  import opened Ranks
  import opened Names
  import opened Dedup

  const DELTA: string := "delta-"
  const DEFAULT_MAX_ENQUEUE_BATCH_SIZE: int := 1000

  /** `keyHash` gives the hash of a projection key, or None where the key does not marshal. */
  datatype DeltaConfig = DeltaConfig(maxBatch: int, keyHash: ProjectionKey -> Option<string>)

  datatype DeltaTable = DeltaTable(
    config: DeltaConfig,
    nextID: nat,
    deltas: map<string, Delta>,
    dedup: map<DedupKey, string>)

  // ----- Enqueue -----

  function Stamped(d: Delta, id: string, keyHash: string, dedupKey: DedupKey, now: Time): Delta {
    d.(id := id,
       state := if d.state.DeltaUnset? then DeltaPending else d.state,
       occurredAt := if d.occurredAt == ZERO_TIME then now else d.occurredAt,
       createdAt := if d.createdAt == ZERO_TIME then now else d.createdAt,
       projectionKeyHash := keyHash,
       dedupKey := dedupKey)
  }

  function KeyOf(d: Delta, keyHash: string): DedupKey {
    if d.dedupWindow == "" then NoKey else ComputeDedupKey(d.dedupWindow, d.projectionType, keyHash)
  }

  /** `dedup` is exactly the map from each nonempty dedup key to its one delta. */
  ghost predicate Indexed(t: DeltaTable) {
    && (forall k | k in t.dedup :: k != NoKey && t.dedup[k] in t.deltas && t.deltas[t.dedup[k]].dedupKey == k)
    && (forall id | id in t.deltas && t.deltas[id].dedupKey != NoKey ::
          t.deltas[id].dedupKey in t.dedup && t.dedup[t.deltas[id].dedupKey] == id)
  }

  ghost predicate DeltasValid(t: DeltaTable) {
    && (forall id | id in t.deltas :: t.deltas[id].id == id)
    && FreshAbove(DELTA, t.nextID, t.deltas.Keys)
    && Indexed(t)
  }

  ghost function NextNumber(t: DeltaTable): nat {
    FirstFree(DELTA, t.nextID, t.deltas.Keys)
  }

  ghost function Enqueued(t: DeltaTable, d: Delta, now: Time): Result<Delta>
    requires DeltasValid(t)
  {
    if d.id != "" then Err(DeltaIDProvided)
    else match t.config.keyHash(d.projectionKey)
      case None => Err(KeyNotEncodable)
      case Some(hash) =>
        var key := KeyOf(d, hash);
        if key in t.dedup then Ok(t.deltas[t.dedup[key]])
        else Ok(Stamped(d, Name(DELTA, NextNumber(t)), hash, key, now))
  }

  /** The id is drawn before the key is hashed and looked up: a key that does not marshal uses a number
      up, a duplicate hands its number back. */
  ghost function AfterEnqueue(t: DeltaTable, d: Delta, now: Time): DeltaTable
    requires DeltasValid(t)
  {
    if d.id != "" then t
    else match t.config.keyHash(d.projectionKey)
      case None => t.(nextID := NextNumber(t))
      case Some(hash) =>
        var key := KeyOf(d, hash);
        if key in t.dedup then t.(nextID := NextNumber(t) - 1)
        else Inserted(t, d, NextNumber(t), hash, key, now)
  }

  function Inserted(t: DeltaTable, d: Delta, n: nat, hash: string, key: DedupKey, now: Time): DeltaTable {
    var stamped := Stamped(d, Name(DELTA, n), hash, key, now);
    t.(nextID := n, deltas := t.deltas[stamped.id := stamped],
       dedup := if key == NoKey then t.dedup else t.dedup[key := stamped.id])
  }

  /** With a fresh counter the number drawn is the next one, so a duplicate leaves the counter as it was. */
  lemma NextIsFresh(t: DeltaTable)
    requires FreshAbove(DELTA, t.nextID, t.deltas.Keys)
    ensures NextNumber(t) == t.nextID + 1 && Name(DELTA, t.nextID + 1) !in t.deltas
  {
    assert Name(DELTA, t.nextID + 1) !in t.deltas.Keys;
  }

  lemma InsertedKeepsIndex(t: DeltaTable, d: Delta, n: nat, hash: string, key: DedupKey, now: Time)
    requires Indexed(t) && key !in t.dedup && Name(DELTA, n) !in t.deltas
    ensures Indexed(Inserted(t, d, n, hash, key, now))
  {
    var t', id := Inserted(t, d, n, hash, key, now), Name(DELTA, n);
    forall other | other in t.deltas ensures t'.deltas[other] == t.deltas[other] && other != id {
    }
  }

  lemma InsertedKeeps(t: DeltaTable, d: Delta, hash: string, key: DedupKey, now: Time)
    requires DeltasValid(t) && key !in t.dedup
    ensures DeltasValid(Inserted(t, d, t.nextID + 1, hash, key, now))
  {
    hide FreshAbove; hide Indexed;
    NextIsFresh(t);
    var t' := Inserted(t, d, t.nextID + 1, hash, key, now);
    AddingKeepsFresh(DELTA, t.nextID, t.nextID + 1, t.deltas.Keys);
    assert t'.deltas.Keys == t.deltas.Keys + {Name(DELTA, t.nextID + 1)};
    InsertedKeepsIndex(t, d, t.nextID + 1, hash, key, now);
  }

  /** Every delta the store creates carries a number at most `nextID`, and the dedup index stays exact. */
  lemma EnqueueKeeps(t: DeltaTable, d: Delta, now: Time)
    requires DeltasValid(t)
    ensures DeltasValid(AfterEnqueue(t, d, now))
    ensures AfterEnqueue(t, d, now).nextID >= t.nextID
    ensures Enqueued(t, d, now).Ok? ==>
              var r := Enqueued(t, d, now).value;
              r.id in AfterEnqueue(t, d, now).deltas && AfterEnqueue(t, d, now).deltas[r.id] == r
  {
    NextIsFresh(t);
    if d.id == "" && t.config.keyHash(d.projectionKey).Some? {
      var hash := t.config.keyHash(d.projectionKey).value;
      if KeyOf(d, hash) !in t.dedup {
        InsertedKeeps(t, d, hash, KeyOf(d, hash), now);
      }
    }
  }

  // ----- EnqueueBatch -----

  /** The window of a batch the store accepts. */
  predicate OneWindow(ds: seq<Delta>) {
    forall i | 0 <= i < |ds| :: ds[i].dedupWindow != "" && ds[i].dedupWindow == ds[0].dedupWindow
  }

  predicate Preparable(t: DeltaTable, d: Delta) {
    d.id == "" && t.config.keyHash(d.projectionKey).Some?
  }

  predicate Accepted(t: DeltaTable, ds: seq<Delta>) {
    |ds| <= t.config.maxBatch && OneWindow(ds) && forall i | 0 <= i < |ds| :: Preparable(t, ds[i])
  }

  /** The first delta that does not carry on the batch's one window carries none. */
  ghost predicate WindowMissing(ds: seq<Delta>) {
    exists i :: 0 <= i < |ds| && ds[i].dedupWindow == "" && (i > 0 ==> OneWindow(ds[..i]))
  }

  /** Delta i is the first that cannot be prepared: it brings an id, or its key does not marshal. */
  ghost predicate FirstUnpreparable(t: DeltaTable, ds: seq<Delta>, i: int) {
    && 0 <= i < |ds| && !Preparable(t, ds[i])
    && forall k | 0 <= k < i :: Preparable(t, ds[k])
  }

  function BatchKey(t: DeltaTable, d: Delta): DedupKey
    requires Preparable(t, d)
  {
    ComputeDedupKey(d.dedupWindow, d.projectionType, t.config.keyHash(d.projectionKey).value)
  }

  /** One turn of the insertion loop, which takes the next number without probing. */
  function AfterInsert(t: DeltaTable, d: Delta, now: Time): DeltaTable
    requires Preparable(t, d)
  {
    if BatchKey(t, d) in t.dedup then t
    else Inserted(t, d, t.nextID + 1, t.config.keyHash(d.projectionKey).value, BatchKey(t, d), now)
  }

  ghost predicate AllPreparable(t: DeltaTable, ds: seq<Delta>) {
    forall i | 0 <= i < |ds| :: Preparable(t, ds[i])
  }

  ghost function AfterBatch(t: DeltaTable, ds: seq<Delta>, now: Time): DeltaTable
    requires AllPreparable(t, ds)
    decreases |ds|
  {
    if ds == [] then t else AfterBatch(AfterInsert(t, ds[0], now), ds[1..], now)
  }

  /** Enqueuing one by one. */
  ghost function AfterSingles(t: DeltaTable, ds: seq<Delta>, now: Time): DeltaTable
    requires DeltasValid(t)
    decreases |ds|
  {
    if ds == [] then t
    else
      EnqueueKeeps(t, ds[0], now);
      AfterSingles(AfterEnqueue(t, ds[0], now), ds[1..], now)
  }

  ghost predicate Windowed(ds: seq<Delta>) {
    forall i | 0 <= i < |ds| :: ds[i].dedupWindow != ""
  }

  lemma OneWindowIsWindowed(ds: seq<Delta>)
    requires OneWindow(ds)
    ensures Windowed(ds)
  {
  }

  lemma InsertIsEnqueue(t: DeltaTable, d: Delta, now: Time)
    requires DeltasValid(t) && Preparable(t, d) && d.dedupWindow != ""
    ensures AfterInsert(t, d, now) == AfterEnqueue(t, d, now)
    ensures DeltasValid(AfterInsert(t, d, now))
  {
    hide ComputeDedupKey; hide FreshAbove; hide Indexed; hide FirstFree; hide Stamped;
    NextIsFresh(t);
    EnqueueKeeps(t, d, now);
  }

  /** A batch leaves the table that enqueuing its deltas one by one does: ids, indexes, counter and all. */
  lemma {:induction false} BatchIsSingles(t: DeltaTable, ds: seq<Delta>, now: Time)
    requires DeltasValid(t) && AllPreparable(t, ds) && Windowed(ds)
    ensures AfterBatch(t, ds, now) == AfterSingles(t, ds, now)
    ensures DeltasValid(AfterBatch(t, ds, now))
    decreases |ds|
  {
    hide DeltasValid; hide Inserted; hide ComputeDedupKey;
    if ds != [] {
      InsertIsEnqueue(t, ds[0], now);
      KeepsConfig(t, ds[0], now);
      BatchIsSingles(AfterInsert(t, ds[0], now), ds[1..], now);
    }
  }

  lemma KeepsConfig(t: DeltaTable, d: Delta, now: Time)
    requires Preparable(t, d)
    ensures AfterInsert(t, d, now).config == t.config
  {
  }

  lemma {:induction false} SplitBatch(t: DeltaTable, a: seq<Delta>, b: seq<Delta>, now: Time)
    requires AllPreparable(t, a) && AllPreparable(t, b) && AllPreparable(t, a + b)
    ensures AfterBatch(t, a, now).config == t.config
    ensures AfterBatch(t, a + b, now) == AfterBatch(AfterBatch(t, a, now), b, now)
    decreases |a|
  {
    hide Inserted; hide ComputeDedupKey;
    if a == [] {
      assert a + b == b;
    } else {
      KeepsConfig(t, a[0], now);
      assert (a + b)[1..] == a[1..] + b;
      SplitBatch(AfterInsert(t, a[0], now), a[1..], b, now);
    }
  }

  ghost function BatchKeys(t: DeltaTable, ds: seq<Delta>): set<DedupKey>
    requires AllPreparable(t, ds)
  {
    set i | 0 <= i < |ds| :: BatchKey(t, ds[i])
  }

  lemma InsertAddsKey(t: DeltaTable, d: Delta, now: Time)
    requires DeltasValid(t) && Preparable(t, d)
    ensures var t1, key := AfterInsert(t, d, now), BatchKey(t, d);
      && DeltasValid(t1) && t1.config == t.config
      && t1.dedup.Keys == t.dedup.Keys + {key}
      && t1.nextID == t.nextID + (if key in t.dedup then 0 else 1)
      && (forall id | id in t.deltas :: id in t1.deltas && t1.deltas[id] == t.deltas[id])
  {
    hide ComputeDedupKey; hide FreshAbove; hide Indexed; hide FirstFree;
    NextIsFresh(t);
    if BatchKey(t, d) !in t.dedup {
      InsertedKeeps(t, d, t.config.keyHash(d.projectionKey).value, BatchKey(t, d), now);
    }
  }

  lemma CountNew(known: set<DedupKey>, key: DedupKey, later: set<DedupKey>)
    ensures |({key} + later) - known| == |later - (known + {key})| + (if key in known then 0 else 1)
  {
    if key in known {
      assert ({key} + later) - known == later - (known + {key});
    } else {
      assert ({key} + later) - known == (later - (known + {key})) + {key};
    }
  }

  /** A batch makes exactly its own keys known, and leaves every delta it finds as it is. */
  lemma {:induction false} BatchInsertsNewKeys(t: DeltaTable, ds: seq<Delta>, now: Time)
    requires DeltasValid(t) && AllPreparable(t, ds)
    ensures var t' := AfterBatch(t, ds, now);
      && t'.config == t.config
      && t'.dedup.Keys == t.dedup.Keys + BatchKeys(t, ds)
      && (forall id | id in t.deltas :: id in t'.deltas && t'.deltas[id] == t.deltas[id])
    decreases |ds|
  {
    hide ComputeDedupKey; hide BatchKey; hide AfterInsert; hide DeltasValid;
    if ds == [] {
      assert BatchKeys(t, ds) == {};
    } else {
      InsertAddsKey(t, ds[0], now);
      BatchKeysCons(t, AfterInsert(t, ds[0], now), ds);
      BatchInsertsNewKeys(AfterInsert(t, ds[0], now), ds[1..], now);
    }
  }

  /** It uses one number for each dedup key the table does not hold yet, and no other. */
  lemma {:induction false} BatchCountsNewKeys(t: DeltaTable, ds: seq<Delta>, now: Time)
    requires DeltasValid(t) && AllPreparable(t, ds)
    ensures AfterBatch(t, ds, now).nextID == t.nextID + |BatchKeys(t, ds) - t.dedup.Keys|
    decreases |ds|
  {
    hide ComputeDedupKey; hide BatchKey; hide AfterInsert; hide DeltasValid;
    if ds == [] {
      assert BatchKeys(t, ds) == {};
    } else {
      var t1 := AfterInsert(t, ds[0], now);
      InsertAddsKey(t, ds[0], now);
      BatchKeysCons(t, t1, ds);
      BatchCountsNewKeys(t1, ds[1..], now);
      CountNew(t.dedup.Keys, BatchKey(t, ds[0]), BatchKeys(t1, ds[1..]));
    }
  }

  lemma BatchKeysCons(t: DeltaTable, t1: DeltaTable, ds: seq<Delta>)
    requires ds != [] && AllPreparable(t, ds) && t1.config == t.config
    ensures AllPreparable(t1, ds[1..])
    ensures BatchKeys(t, ds) == {BatchKey(t, ds[0])} + BatchKeys(t1, ds[1..])
  {
    hide ComputeDedupKey;
    assert forall i | 1 <= i < |ds| :: ds[1..][i - 1] == ds[i] && BatchKey(t1, ds[1..][i - 1]) == BatchKey(t, ds[i]);
  }

  /** Once every key is known, a batch changes nothing: repeating a batch inserts nothing. */
  lemma {:induction false} KnownKeysChangeNothing(t: DeltaTable, ds: seq<Delta>, now: Time)
    requires AllPreparable(t, ds)
    requires forall i | 0 <= i < |ds| :: BatchKey(t, ds[i]) in t.dedup
    ensures AfterBatch(t, ds, now) == t
  {
    hide ComputeDedupKey; hide Inserted;
    if ds != [] {
      KnownKeysChangeNothing(t, ds[1..], now);
    }
  }

  lemma RepeatedBatch(t: DeltaTable, ds: seq<Delta>, now: Time, later: Time)
    requires DeltasValid(t) && AllPreparable(t, ds)
    ensures AfterBatch(t, ds, now).config == t.config
    ensures AfterBatch(AfterBatch(t, ds, now), ds, later) == AfterBatch(t, ds, now)
  {
    hide ComputeDedupKey; hide Inserted;
    SplitBatch(t, ds, [], now) by { assert ds + [] == ds; }
    BatchInsertsNewKeys(t, ds, now);
    assert forall i | 0 <= i < |ds| :: BatchKey(t, ds[i]) in BatchKeys(t, ds);
    KnownKeysChangeNothing(AfterBatch(t, ds, now), ds, later);
  }

  // ----- Dispatch side -----

  function PendingRank(d: Delta): Rank {
    Rank(Some(d.occurredAt), d.createdAt, d.id)
  }

  function PendingRanks(deltas: map<string, Delta>, syncID: string): set<Rank> {
    set id | id in deltas && deltas[id].state.DeltaPending? && deltas[id].syncID == syncID :: PendingRank(deltas[id])
  }

  ghost predicate DeltasKeyed(deltas: map<string, Delta>) {
    forall id | id in deltas :: deltas[id].id == id
  }

  /** The pending deltas of a sync, oldest first. */
  ghost function PendingQueue(deltas: map<string, Delta>, syncID: string): (q: seq<Rank>)
    requires DeltasKeyed(deltas)
    ensures ListsDeltas(deltas, q)
  {
    PendingQueueLists(deltas, syncID);
    Sorted(PendingRanks(deltas, syncID))
  }

  ghost predicate ListsDeltas(deltas: map<string, Delta>, q: seq<Rank>) {
    && Ascending(q)
    && (forall i | 0 <= i < |q| :: q[i].id in deltas && PendingRank(deltas[q[i].id]) == q[i])
  }

  lemma PendingQueueLists(deltas: map<string, Delta>, syncID: string)
    requires DeltasKeyed(deltas)
    ensures var q := Sorted(PendingRanks(deltas, syncID));
      && ListsDeltas(deltas, q)
      && forall i | 0 <= i < |q| :: deltas[q[i].id].state.DeltaPending? && deltas[q[i].id].syncID == syncID
  {
    hide Before;
    var q := Sorted(PendingRanks(deltas, syncID));
    forall i | 0 <= i < |q|
      ensures q[i].id in deltas && PendingRank(deltas[q[i].id]) == q[i]
      ensures deltas[q[i].id].state.DeltaPending? && deltas[q[i].id].syncID == syncID
    {
      assert q[i] in Elements(q);
    }
  }

  function Dispatched(d: Delta, now: Time): Delta {
    d.(state := DeltaDispatched, dispatchedAt := Some(now))
  }
}
