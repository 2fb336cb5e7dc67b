/** The in-memory delta store, updated in place. */
module DeltaStore {
  import opened Types
  import opened Ranks
  import opened Names
  import opened Dedup
  import opened Deltas
  import opened DeltaFields

  datatype EnqueueBatchResult = EnqueueBatchResult(
    requestedCount: nat, insertedCount: nat, duplicateCount: nat, dedupWindow: string)

  class DeltaMemoryStore {
    const config: DeltaConfig
    var nextID: nat
    var deltas: map<string, Delta>
    var dedup: map<DedupKey, string>

    ghost function Table(): DeltaTable
      reads this
    {
      DeltaTable(config, nextID, deltas, dedup)
    }

    ghost predicate Valid()
      reads this
    {
      DeltasValid(Table())
    }

    constructor (maxEnqueueBatchSize: int, keyHash: ProjectionKey -> Option<string>)
      ensures Valid() && nextID == 0 && deltas == map[] && dedup == map[]
      ensures config.keyHash == keyHash
      ensures config.maxBatch == if maxEnqueueBatchSize <= 0 then 1000 else maxEnqueueBatchSize
    {
      config := DeltaConfig(
        if maxEnqueueBatchSize <= 0 then DEFAULT_MAX_ENQUEUE_BATCH_SIZE else maxEnqueueBatchSize, keyHash);
      nextID, deltas, dedup := 0, map[], map[];
    }

    method Enqueue(cancelled: bool, delta: Delta, now: Time) returns (r: Result<Delta>)
      requires Valid()
      modifies this
      ensures Valid()
      ensures cancelled ==> Table() == old(Table()) && r == Err(ContextDone)
      ensures !cancelled ==>
                && Table() == AfterEnqueue(old(Table()), delta, now)
                && r == Enqueued(old(Table()), delta, now)
      ensures !cancelled && delta.id != "" ==> Table() == old(Table()) && r == Err(DeltaIDProvided)
      ensures !cancelled && delta.id == "" && config.keyHash(delta.projectionKey) == None ==>
                r == Err(KeyNotEncodable) && deltas == old(deltas) && nextID == old(nextID) + 1
      ensures !cancelled && delta.id == "" && config.keyHash(delta.projectionKey) != None ==>
                && r.Ok?
                && StoredOnce(old(Table()), Table(), delta, config.keyHash(delta.projectionKey).value, now, r.value)
    {
      hide ComputeDedupKey; hide Stamped; hide FreshAbove; hide FirstFree; hide StoredOnce;
      if cancelled { return Err(ContextDone); }
      EnqueueKeeps(Table(), delta, now);
      EnqueueByFields(Table(), delta, now);
      NextIsFresh(Table());
      if delta.id != "" { return Err(DeltaIDProvided); }
      nextID := Probe(DELTA, nextID, deltas.Keys);
      var hash := config.keyHash(delta.projectionKey);
      if hash.None? { return Err(KeyNotEncodable); }
      var key := if delta.dedupWindow != ""
                 then ComputeDedupKey(delta.dedupWindow, delta.projectionType, hash.value) else NoKey;
      if key in dedup {
        nextID := nextID - 1;
        return Ok(deltas[dedup[key]]);
      }
      var stamped := Stamped(delta, Name(DELTA, nextID), hash.value, key, now);
      deltas := deltas[stamped.id := stamped];
      if key != NoKey {
        dedup := dedup[key := stamped.id];
      }
      return Ok(stamped);
    }

    /** `validateEnqueueBatch`: the one window of the batch, or the first thing wrong with it. */
    method ValidateEnqueueBatch(cancelled: bool, ds: seq<Delta>) returns (r: Result<string>)
      ensures r.Ok? <==> !cancelled && |ds| <= config.maxBatch && OneWindow(ds)
      ensures r.Ok? ==> r.value == if ds == [] then "" else ds[0].dedupWindow
      ensures r == Err(ContextDone) <==> cancelled
      ensures r == Err(EnqueueBatchTooLarge) <==> !cancelled && |ds| > config.maxBatch
      ensures r == Err(DedupWindowRequired) <==>
                !cancelled && |ds| <= config.maxBatch && WindowMissing(ds)
      ensures r == Err(MixedDedupWindows) <==>
                !cancelled && |ds| <= config.maxBatch && !OneWindow(ds) && !WindowMissing(ds)
    {
      if cancelled { return Err(ContextDone); }
      if |ds| > config.maxBatch { return Err(EnqueueBatchTooLarge); }
      if |ds| == 0 { return Ok(""); }
      var window := ds[0].dedupWindow;
      if window == "" { return Err(DedupWindowRequired); }
      for i := 1 to |ds|
        invariant OneWindow(ds[..i])
      {
        if ds[i].dedupWindow == "" { return Err(DedupWindowRequired); }
        if ds[i].dedupWindow != window {
          forall k | i < k < |ds| ensures !OneWindow(ds[..k]) {
            assert ds[..k][i] == ds[i] && ds[..k][0] == ds[0];
          }
          assert forall k | 0 <= k < i :: ds[..i][k] == ds[k];
          return Err(MixedDedupWindows);
        }
        assert forall k | 0 <= k < i :: ds[..i + 1][k] == ds[..i][k];
      }
      assert ds[..|ds|] == ds;
      return Ok(window);
    }

    /** The preparation loop, before the lock: no delta may bring an id, and every key must marshal. */
    method Prepare(ds: seq<Delta>) returns (err: Option<Error>)
      ensures err == None <==> AllPreparable(Table(), ds)
      ensures err == Some(DeltaIDProvided) <==> exists i :: FirstUnpreparable(Table(), ds, i) && ds[i].id != ""
      ensures err == Some(KeyNotEncodable) <==> exists i :: FirstUnpreparable(Table(), ds, i) && ds[i].id == ""
      ensures err.Some? ==> err.value == DeltaIDProvided || err.value == KeyNotEncodable
    {
      for i := 0 to |ds|
        invariant forall k | 0 <= k < i :: Preparable(Table(), ds[k])
      {
        if ds[i].id != "" { return Some(DeltaIDProvided); }
        if config.keyHash(ds[i].projectionKey).None? { return Some(KeyNotEncodable); }
      }
      return None;
    }

    method EnqueueBatch(cancelled: bool, ds: seq<Delta>, now: Time) returns (r: Result<EnqueueBatchResult>)
      requires Valid()
      modifies this
      ensures Valid()
      ensures r.Ok? <==> !cancelled && Accepted(old(Table()), ds)
      ensures r.Err? ==> Table() == old(Table())
      ensures r == Err(ContextDone) <==> cancelled
      ensures r == Err(EnqueueBatchTooLarge) <==> !cancelled && |ds| > config.maxBatch
      ensures r == Err(DedupWindowRequired) <==> !cancelled && |ds| <= config.maxBatch && WindowMissing(ds)
      ensures r == Err(MixedDedupWindows) <==>
                !cancelled && |ds| <= config.maxBatch && !OneWindow(ds) && !WindowMissing(ds)
      ensures r == Err(DeltaIDProvided) <==>
                && !cancelled && |ds| <= config.maxBatch && OneWindow(ds)
                && exists i :: FirstUnpreparable(old(Table()), ds, i) && ds[i].id != ""
      ensures r == Err(KeyNotEncodable) <==>
                && !cancelled && |ds| <= config.maxBatch && OneWindow(ds)
                && exists i :: FirstUnpreparable(old(Table()), ds, i) && ds[i].id == ""
      ensures r.Ok? ==>
                && Table() == AfterBatch(old(Table()), ds, now)
                && r.value.requestedCount == |ds| == r.value.insertedCount + r.value.duplicateCount
                && r.value.insertedCount == |BatchKeys(old(Table()), ds) - old(dedup).Keys|
                && r.value.dedupWindow == (if ds == [] then "" else ds[0].dedupWindow)
      ensures r.Ok? ==>
                && NewAreStored(old(Table()), Table(), ds, |ds|, now)
                && r.value.insertedCount == |NewAmong(old(Table()), ds, |ds|)|
    {
      hide NewAmong; hide NewAreStored; hide OneWindow; hide WindowMissing; hide DeltasValid; hide AfterBatch;
      hide BatchKeys; hide FirstUnpreparable;
      ghost var before := Table();
      var window := ValidateEnqueueBatch(cancelled, ds);
      if window.Err? { return Err(window.error); }
      var unprepared := Prepare(ds);
      if unprepared.Some? { return Err(unprepared.value); }
      assert Windowed(ds) by { OneWindowIsWindowed(ds); }
      BatchCountsNewKeys(before, ds, now);
      WholeBatchByFields(before, ds, now);
      var inserted, duplicates := InsertPrepared(ds, now);
      return Ok(EnqueueBatchResult(|ds|, inserted, duplicates, window.value));
    }

    /** One turn of the insertion loop: a delta with a new key gets the next number, any other is a duplicate. */
    method InsertOne(d: Delta, now: Time) returns (isNew: bool)
      requires Preparable(Table(), d)
      modifies this
      ensures Table() == AfterInsert(old(Table()), d, now)
      ensures nextID == old(nextID) + if isNew then 1 else 0
    {
      hide ComputeDedupKey;
      var hash := config.keyHash(d.projectionKey).value;
      var key := ComputeDedupKey(d.dedupWindow, d.projectionType, hash);
      if key in dedup { return false; }
      nextID := nextID + 1;
      var stamped := Stamped(d, Name(DELTA, nextID), hash, key, now);
      deltas := deltas[stamped.id := stamped];
      dedup := dedup[key := stamped.id];
      return true;
    }

    /** The insertion loop, under the lock. */
    method InsertPrepared(ds: seq<Delta>, now: Time) returns (inserted: nat, duplicates: nat)
      requires AllPreparable(Table(), ds)
      modifies this
      ensures Table() == AfterBatch(old(Table()), ds, now)
      ensures inserted + duplicates == |ds| && nextID == old(nextID) + inserted
    {
      hide AfterInsert;
      ghost var before := Table();
      inserted, duplicates := 0, 0;
      for i := 0 to |ds|
        invariant forall k | 0 <= k < |ds| :: Preparable(Table(), ds[k])
        invariant AllPreparable(Table(), ds[i..])
        invariant AfterBatch(Table(), ds[i..], now) == AfterBatch(before, ds, now)
        invariant inserted + duplicates == i && nextID == before.nextID + inserted
      {
        assert ds[i..][0] == ds[i] && ds[i..][1..] == ds[i + 1..];
        KeepsConfig(Table(), ds[i], now);
        var isNew := InsertOne(ds[i], now);
        if isNew { inserted := inserted + 1; } else { duplicates := duplicates + 1; }
      }
      assert ds[|ds|..] == [];
    }

    method PendingDeltaIDs(syncID: string) returns (ids: seq<Rank>)
      requires Valid()
      ensures ids == PendingQueue(deltas, syncID)
      ensures OldestFirst(deltas, IdsOf(ids), syncID, |PendingIDs(deltas, syncID)|)
    {
      hide Before; hide OccurredBefore; hide OldestFirst; hide PendingIDs;
      ids := [];
      var rest := deltas.Keys;
      while rest != {}
        invariant rest <= deltas.Keys
        invariant Elements(ids) == set id | id in deltas.Keys - rest && deltas[id].state.DeltaPending?
                                            && deltas[id].syncID == syncID :: PendingRank(deltas[id])
        invariant forall i | 0 <= i < |ids| :: ids[i].id in deltas.Keys - rest
        invariant forall i, j | 0 <= i < j < |ids| :: ids[i] != ids[j]
        decreases rest
      {
        var id :| id in rest;
        ghost var before := ids;
        ghost var done := deltas.Keys - rest;
        if deltas[id].state.DeltaPending? && deltas[id].syncID == syncID {
          ids := ids + [PendingRank(deltas[id])];
          AppendElements(before, PendingRank(deltas[id]));
        }
        rest := rest - {id};
        assert deltas.Keys - rest == done + {id};
      }
      assert deltas.Keys - rest == deltas.Keys;
      assert Elements(ids) == PendingRanks(deltas, syncID);
      ids := Sort(ids);
      QueueByFields(deltas, syncID, |PendingIDs(deltas, syncID)|);
    }

    method Pull(cancelled: bool, syncID: string, limit: int) returns (r: Result<seq<Delta>>)
      requires Valid()
      ensures cancelled ==> r == Err(ContextDone)
      ensures !cancelled && limit <= 0 ==> r == Ok([])
      ensures !cancelled && limit > 0 ==>
                var q := Take(PendingQueue(deltas, syncID), limit);
                && r.Ok? && |r.value| == |q|
                && forall i | 0 <= i < |q| :: r.value[i] == deltas[q[i].id]
      ensures !cancelled ==>
                && r.Ok? && OldestFirst(deltas, DeltaIDs(r.value), syncID, limit)
                && forall i | 0 <= i < |r.value| :: r.value[i].id in deltas && r.value[i] == deltas[r.value[i].id]
    {
      hide Ascending; hide PendingRank; hide Indexed; hide FreshAbove; hide PendingQueue; hide OccurredBefore;
      hide PendingIDs;
      if cancelled { return Err(ContextDone); }
      if limit <= 0 { return Ok([]); }
      QueueByFields(deltas, syncID, limit);
      var ids := PendingDeltaIDs(syncID);
      ids := Take(ids, limit);
      var pulled := [];
      for i := 0 to |ids|
        invariant |pulled| == i
        invariant forall k | 0 <= k < i :: pulled[k] == deltas[ids[k].id]
      {
        pulled := pulled + [deltas[ids[i].id]];
      }
      assert DeltaIDs(pulled) == IdsOf(ids);
      return Ok(pulled);
    }

    method MarkDispatched(cancelled: bool, deltaID: string, now: Time) returns (err: Option<Error>)
      requires Valid()
      modifies this`deltas
      ensures Valid()
      ensures err == if cancelled then Some(ContextDone)
                     else if deltaID !in old(deltas) then Some(DeltaNotFound) else None
      ensures deltas == if err.None? && !old(deltas)[deltaID].state.DeltaDispatched?
                        then old(deltas)[deltaID := old(deltas)[deltaID].(state := DeltaDispatched,
                                                                         dispatchedAt := Some(now))]
                        else old(deltas)
    {
      if cancelled { return Some(ContextDone); }
      if deltaID !in deltas { return Some(DeltaNotFound); }
      if deltas[deltaID].state.DeltaDispatched? { return None; }
      deltas := deltas[deltaID := Dispatched(deltas[deltaID], now)];
      return None;
    }
  }
}
