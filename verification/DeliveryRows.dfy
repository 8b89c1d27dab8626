/**
 * The rows behind one durable Telegram delivery, and what each SQL statement of
 * DeliveryOperationsRepository does to them. Times are milliseconds.
 */
module DeliveryRows {
  import opened Wrappers
  import opened Utf16

  /** A random UUID drawn once per delivery attempt. */
  type Owner = string

  datatype ChunkState = Pending | Sending | Failed | Uncertain | Confirmed

  datatype Chunk = Chunk(
    body: Text,
    state: ChunkState,
    attempts: nat,
    messageId: Option<int>,
    confirmedAt: Option<int>,
    lastError: Option<string>)

  datatype OperationStatus = Waiting | InProgress | Broken | Complete

  datatype Operation = Operation(
    status: OperationStatus,
    claimedBy: Option<Owner>,
    claimExpiresAt: Option<int>,
    createdAt: int,
    updatedAt: int,
    completedAt: Option<int>)

  datatype Resolution = AsConfirmed | Retry

  // ----- prepare

  function FreshOperation(now: int): Operation {
    Operation(Waiting, None, None, now, now, None)
  }

  function FreshChunk(body: Text): Chunk {
    Chunk(body, Pending, 0, None, None, None)
  }

  /** The rows after inserting one row per body and skipping the indexes already there. */
  function InsertMissing(rows: seq<Chunk>, bodies: seq<Text>): (r: seq<Chunk>)
    ensures rows <= r
    ensures |r| == if |rows| < |bodies| then |bodies| else |rows|
    ensures forall i :: |rows| <= i < |r| ==> r[i] == FreshChunk(bodies[i])
  {
    if |rows| < |bodies| then
      rows + seq(|bodies| - |rows|, i requires 0 <= i < |bodies| - |rows| => FreshChunk(bodies[|rows| + i]))
    else
      rows
  }

  predicate ContentMatches(rows: seq<Chunk>, bodies: seq<Text>) {
    |rows| == |bodies| && forall i :: 0 <= i < |rows| ==> rows[i].body == bodies[i]
  }

  function States(rows: seq<Chunk>): (r: seq<ChunkState>)
    ensures |r| == |rows|
    ensures forall i :: 0 <= i < |rows| ==> r[i] == rows[i].state
  {
    seq(|rows|, i requires 0 <= i < |rows| => rows[i].state)
  }

  // ----- chunk rows

  function MarkSending(c: Chunk): Chunk {
    c.(state := Sending, attempts := c.attempts + 1, lastError := None)
  }

  function MarkConfirmed(c: Chunk, messageId: Option<int>, at: int): Chunk {
    c.(state := Confirmed, confirmedAt := Some(at), messageId := messageId, lastError := None)
  }

  function MarkFailed(c: Chunk, error: string): Chunk {
    c.(state := Failed, lastError := Some(error))
  }

  function MarkUncertain(c: Chunk, error: string): Chunk {
    c.(state := Uncertain, lastError := Some(error))
  }

  // ----- the operation row

  /** The WHERE clause of `claim`: a NULL expiry never compares as expired. */
  predicate CanClaim(op: Operation, owner: Owner, now: int) {
    && op.status != Complete
    && (|| op.claimedBy == None
        || op.claimedBy == Some(owner)
        || (op.claimExpiresAt.Some? && op.claimExpiresAt.value < now))
  }

  function WithClaim(op: Operation, owner: Owner, now: int, leaseMs: int): Operation {
    op.(claimedBy := Some(owner), claimExpiresAt := Some(now + leaseMs), status := InProgress, updatedAt := now)
  }

  function WithStatus(op: Operation, status: OperationStatus, now: int): Operation {
    op.(status := status, updatedAt := now)
  }

  function WithCompletion(op: Operation, now: int): Operation {
    op.(status := Complete, completedAt := Some(now), updatedAt := now, claimedBy := None, claimExpiresAt := None)
  }

  function WithRelease(op: Operation, owner: Owner, now: int): Operation {
    if op.claimedBy == Some(owner) then
      op.(claimedBy := None, claimExpiresAt := None, updatedAt := now)
    else
      op
  }

  // ----- manual reconciliation

  predicate CanReconcile(rows: seq<Chunk>, index: nat) {
    index < |rows| && (rows[index].state == Uncertain || rows[index].state == Sending)
  }

  function ReconciledChunk(c: Chunk, how: Resolution, messageId: Option<int>, now: int): Chunk {
    match how
    case AsConfirmed =>
      c.(state := Confirmed, confirmedAt := Some(now), messageId := messageId,
         lastError := Some("manually reconciled as confirmed"))
    case Retry =>
      c.(state := Pending, confirmedAt := None, messageId := None,
         lastError := Some("manual retry authorized after uncertain acknowledgement"))
  }

  predicate AllConfirmed(rows: seq<Chunk>) {
    forall i :: 0 <= i < |rows| ==> rows[i].state == Confirmed
  }

  function ReconciledOperation(op: Operation, rows: seq<Chunk>, now: int): Operation {
    var done := |rows| > 0 && AllConfirmed(rows);
    op.(status := if done then Complete else Waiting,
        updatedAt := now,
        completedAt := if done then Some(now) else None,
        claimedBy := None,
        claimExpiresAt := None)
  }
}
