/** The entities of DeltaFlow: deltas (the outbox), sync jobs, and the errors the stores return.

    A Go string is modelled by a `string` whose characters are its bytes, a `time.Time` by its
    nanosecond count (0 is the zero time), and a nil-able pointer by an `Option`. */
module Types {
  datatype Option<+T> = None | Some(value: T)

  datatype Result<+T> = Ok(value: T) | Err(error: Error)

  datatype Error =
    | ContextDone
    | DeltaIDProvided
    | KeyNotEncodable
    | EnqueueBatchTooLarge
    | DedupWindowRequired
    | MixedDedupWindows
    | DeltaNotFound
    | JobIDProvided
    | OutboxJobNeedsDelta
    | DeltaAlreadyMapped
    | JobNotFound
    | JobLeaseNotOwned
    | InvalidLockFor
    | InvalidLeaseWindow
    | AuditReasonRequired
    | JobLeaseNotExpired
    | InvalidConfig
    | StorageFault

  /** The texts of the errors that a requeued job can carry as its last error. */
  function Message(e: Error): string {
    match e
    case ContextDone => "context canceled"
    case JobNotFound => "job not found"
    case JobLeaseNotOwned => "job lease not owned"
    case InvalidLockFor => "lock duration must be positive"
    case _ => "storage error"
  }

  type Time = int
  const ZERO_TIME: Time := 0
  const MICROSECOND: int := 1_000
  const SECOND: int := 1_000_000_000

  /** One raw JSON value of a projection key. */
  datatype Json = JsonString(text: string) | JsonOther(raw: string)

  type ProjectionKey = map<string, Json>

  /** SHA-256 is modelled as an ideal hash: a free constructor over the hashed bytes. */
  datatype DedupKey = NoKey | Sha256(bytes: string)

  datatype DeltaState = DeltaUnset | DeltaPending | DeltaDispatched | DeltaIgnored

  datatype Delta = Delta(
    id: string,
    syncID: string,
    origin: string,
    projectionType: string,
    projectionKey: ProjectionKey,
    projectionKeyHash: string,
    dedupWindow: string,
    dedupKey: DedupKey,
    state: DeltaState,
    occurredAt: Time,
    createdAt: Time,
    dispatchedAt: Option<Time>,
    metadata: string)

  datatype JobOrigin = Backfill | Replay | Manual | Outbox | Unknown

  datatype JobState = Unset | Pending | Processing | Synced | Retrying | Dead

  datatype SyncJob = SyncJob(
    id: string,
    syncID: string,
    deltaID: Option<string>,
    origin: JobOrigin,
    projectionType: string,
    projectionKey: ProjectionKey,
    projectionKeyHash: string,
    state: JobState,
    attemptCount: int,
    maxAttempts: int,
    lastError: Option<string>,
    lastErrorCode: Option<string>,
    availableAt: Time,
    lockedBy: Option<string>,
    lockedUntil: Option<Time>,
    ghostDetected: bool,
    syncedAt: Option<Time>,
    deadAt: Option<Time>,
    createdAt: Time,
    updatedAt: Time)

  function Min(a: int, b: int): int {
    if a <= b then a else b
  }

  /** The first `limit` entries, or all if there are no more. */
  function Take<T>(s: seq<T>, limit: int): (r: seq<T>)
    requires limit >= 0
    ensures |r| == Min(|s|, limit) && r <= s
  {
    if |s| > limit then s[..limit] else s
  }
}
