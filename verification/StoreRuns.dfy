/** The in-memory stores perform every call and every run of `Runs.dfy`: what is proved of runs holds of the stores. */
module StoreRuns {
  import opened Types
  import opened Jobs
  import opened Dispatch
  import opened DispatchStore
  import opened Runs
  import D = Deltas
  import F = DeltaFields
  import J = JobFields
  import M = DispatchFields

  /** One call on the stores a dispatch store binds together. The answers are not looked at. */
  method Perform(stores: MemoryDispatchStore, c: Call, now: Time)
    requires stores.Valid()
    modifies stores.deltaStore, stores.jobStore
    ensures stores.Valid()
    ensures stores.Tables() == Do(old(stores.Tables()), c, now)
  {
    hide D.DeltasValid; hide JobsValid; hide AfterBatch; hide AfterUpdate; hide AfterOperator; hide AfterCreate;
    hide D.AfterBatch; hide D.AfterEnqueue; hide DispatchAll; hide Selection; hide D.Accepted; hide D.OneWindow;
    hide D.WindowMissing; hide D.FirstUnpreparable; hide F.StoredOnce; hide F.NewAreStored; hide J.BatchIsLeased;
    hide M.OldestAreMoved; hide M.JobsAreMade; hide BatchOf; hide J.Owns; hide J.Lapsed; hide Blank; hide Created;
    match c
    case Enqueue(delta) => var _ := stores.deltaStore.Enqueue(false, delta, now);
    case EnqueueBatch(deltas) => var _ := stores.deltaStore.EnqueueBatch(false, deltas, now);
    case MarkDispatched(deltaID) => var _ := stores.deltaStore.MarkDispatched(false, deltaID, now);
    case DispatchPending(syncID, limit) => var _ := stores.DispatchPending(false, syncID, limit, now);
    case Create(job) => var _ := stores.jobStore.Create(false, job, now);
    case Claim(workerID, syncID, limit, lockFor) =>
      var _ := stores.jobStore.ClaimNextBatch(false, syncID, workerID, limit, lockFor, now);
    case Update(workerID, jobID, update) => var _ := stores.jobStore.UpdateOwned(false, jobID, workerID, update, now);
    case Operate(jobID, op) => var _ := stores.jobStore.OperateOnExpired(false, jobID, op, now);
  }

  /** A whole run, call after call. */
  method PerformAll(stores: MemoryDispatchStore, run: seq<Entry>)
    requires stores.Valid()
    modifies stores.deltaStore, stores.jobStore
    ensures stores.Valid()
    ensures stores.Tables() == After(old(stores.Tables()), run)
  {
    hide StoresValid; hide Do;
    for i := 0 to |run|
      invariant stores.Valid()
      invariant After(stores.Tables(), run[i..]) == After(old(stores.Tables()), run)
    {
      assert run[i..][0] == run[i] && run[i..][1..] == run[i + 1..];
      Perform(stores, run[i].call, run[i].at);
    }
    assert run[|run|..] == [];
  }
}
