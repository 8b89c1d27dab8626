/**
 * DeliveryOperationsRepository: the two tables of durable deliveries, updated in place.
 * Each method is one SQL statement or one transaction; the source's `startChunk`,
 * `failChunk` and `markChunkUncertain` issue two statements without a transaction, so
 * each of their halves is a method of its own here.
 */
module DeliveryStore {
  import opened Wrappers
  import opened Utf16
  import opened DeliveryRows

  /** The source hashes this pair; the pair itself stands for its hash. */
  datatype OperationId = OperationId(channelKey: string, contentHash: Text)

  class DeliveryOperationsRepository {
    var operations: map<OperationId, Operation>
    /** The chunk rows of an operation, in chunk index order. */
    var chunks: map<OperationId, seq<Chunk>>

    constructor ()
      ensures operations == map[] && chunks == map[]
    {
      operations := map[];
      chunks := map[];
    }

    function Rows(id: OperationId): seq<Chunk>
      reads this
    {
      if id in chunks then chunks[id] else []
    }

    static method InsertRows(existing: seq<Chunk>, bodies: seq<Text>) returns (rows: seq<Chunk>)
      ensures rows == InsertMissing(existing, bodies)
    {
      rows := existing;
      var index := 0;
      while index < |bodies|
        invariant 0 <= index <= |bodies|
        invariant rows == InsertMissing(existing, bodies[..index])
        invariant |rows| >= index
      {
        if |rows| <= index {
          rows := rows + [FreshChunk(bodies[index])];
        }
        index := index + 1;
      }
      assert bodies[..|bodies|] == bodies;
    }

    static method SameBodies(rows: seq<Chunk>, bodies: seq<Text>) returns (same: bool)
      ensures same <==> ContentMatches(rows, bodies)
    {
      if |rows| != |bodies| {
        return false;
      }
      var i := 0;
      while i < |rows|
        invariant 0 <= i <= |rows|
        invariant forall j :: 0 <= j < i ==> rows[j].body == bodies[j]
      {
        if rows[i].body != bodies[i] {
          return false;
        }
        i := i + 1;
      }
      return true;
    }

    /** Inserts the operation and its missing chunks, then reads the chunks back. */
    method Prepare(id: OperationId, bodies: seq<Text>, now: int) returns (r: Result<seq<Chunk>>)
      modifies this
      ensures operations == if id in old(operations) then old(operations)
                            else old(operations)[id := FreshOperation(now)]
      ensures chunks == old(chunks)[id := InsertMissing(old(Rows(id)), bodies)]
      ensures r.Ok? <==> ContentMatches(chunks[id], bodies)
      ensures r.Ok? ==> r.value == chunks[id]
    {
      if id !in operations {
        operations := operations[id := FreshOperation(now)];
      }
      var rows := InsertRows(Rows(id), bodies);
      chunks := chunks[id := rows];
      var matching := SameBodies(rows, bodies);
      if !matching {
        return Thrown("delivery checkpoint content does not match operation");
      }
      return Ok(rows);
    }

    /** True iff the conditional UPDATE changed the row. */
    method Claim(id: OperationId, owner: Owner, now: int, leaseMs: int) returns (claimed: bool)
      modifies this`operations
      ensures claimed <==>
              && id in old(operations)
              && var op := old(operations)[id];
                 && op.status != OperationStatus.Complete
                 && (op.claimedBy == None || op.claimedBy == Some(owner)
                     || (op.claimExpiresAt.Some? && op.claimExpiresAt.value < now))
      ensures operations == if claimed
                            then old(operations)[id := old(operations)[id].(
                                     claimedBy := Some(owner), claimExpiresAt := Some(now + leaseMs),
                                     status := InProgress, updatedAt := now)]
                            else old(operations)
    {
      claimed := id in operations && CanClaim(operations[id], owner, now);
      if claimed {
        operations := operations[id := WithClaim(operations[id], owner, now, leaseMs)];
      }
    }

    /** There is such a chunk row. */
    predicate HasChunk(id: OperationId, index: nat)
      reads this`chunks
    {
      id in chunks && index < |chunks[id]|
    }

    method UpdateChunk(id: OperationId, index: nat, row: Chunk)
      requires HasChunk(id, index)
      modifies this`chunks
      ensures chunks == old(chunks)[id := old(chunks)[id][index := row]]
    {
      chunks := chunks[id := chunks[id][index := row]];
    }

    /** First statement of `startChunk`, with the read of `attempts` before it. */
    method StartChunk(id: OperationId, index: nat)
      modifies this`chunks
      ensures chunks == if old(HasChunk(id, index))
                        then old(chunks)[id := old(chunks)[id][index :=
                                 old(chunks)[id][index].(state := Sending, lastError := None,
                                                         attempts := old(chunks)[id][index].attempts + 1)]]
                        else old(chunks)
    {
      if HasChunk(id, index) {
        UpdateChunk(id, index, MarkSending(chunks[id][index]));
      }
    }

    method ConfirmChunk(id: OperationId, index: nat, messageId: Option<int>, confirmedAt: int)
      modifies this`chunks
      ensures chunks == if old(HasChunk(id, index))
                        then old(chunks)[id := old(chunks)[id][index :=
                                 old(chunks)[id][index].(state := Confirmed, messageId := messageId,
                                                         confirmedAt := Some(confirmedAt), lastError := None)]]
                        else old(chunks)
    {
      if HasChunk(id, index) {
        UpdateChunk(id, index, MarkConfirmed(chunks[id][index], messageId, confirmedAt));
      }
    }

    /** First statement of `failChunk`. */
    method FailChunk(id: OperationId, index: nat, error: string)
      modifies this`chunks
      ensures chunks == if old(HasChunk(id, index))
                        then old(chunks)[id := old(chunks)[id][index :=
                                 old(chunks)[id][index].(state := Failed, lastError := Some(error))]]
                        else old(chunks)
    {
      if HasChunk(id, index) {
        UpdateChunk(id, index, MarkFailed(chunks[id][index], error));
      }
    }

    /** First statement of `markChunkUncertain`. */
    method MarkChunkUncertain(id: OperationId, index: nat, error: string)
      modifies this`chunks
      ensures chunks == if old(HasChunk(id, index))
                        then old(chunks)[id := old(chunks)[id][index :=
                                 old(chunks)[id][index].(state := Uncertain, lastError := Some(error))]]
                        else old(chunks)
    {
      if HasChunk(id, index) {
        UpdateChunk(id, index, MarkUncertain(chunks[id][index], error));
      }
    }

    /** Second statement of `startChunk`, `failChunk` and `markChunkUncertain`. */
    method SetStatus(id: OperationId, status: OperationStatus, now: int)
      modifies this`operations
      ensures operations == if id in old(operations)
                            then old(operations)[id := old(operations)[id].(status := status, updatedAt := now)]
                            else old(operations)
    {
      if id in operations {
        operations := operations[id := WithStatus(operations[id], status, now)];
      }
    }

    method Complete(id: OperationId, completedAt: int)
      modifies this`operations
      ensures operations == if id in old(operations)
                            then old(operations)[id := old(operations)[id].(
                                     status := OperationStatus.Complete, completedAt := Some(completedAt),
                                     updatedAt := completedAt, claimedBy := None, claimExpiresAt := None)]
                            else old(operations)
    {
      if id in operations {
        operations := operations[id := WithCompletion(operations[id], completedAt)];
      }
    }

    method Release(id: OperationId, owner: Owner, now: int)
      modifies this`operations
      ensures operations == if id in old(operations) && old(operations)[id].claimedBy == Some(owner)
                            then old(operations)[id := old(operations)[id].(
                                     claimedBy := None, claimExpiresAt := None, updatedAt := now)]
                            else old(operations)
    {
      if id in operations && operations[id].claimedBy == Some(owner) {
        operations := operations[id := WithRelease(operations[id], owner, now)];
      }
    }

    /** Manual resolution of an uncertain chunk, in one transaction. */
    method ReconcileUncertainChunk(id: OperationId, index: nat, how: Resolution, messageId: Option<int>, now: int)
      returns (r: Result<()>)
      requires id in chunks ==> id in operations
      modifies this
      ensures r.Ok? <==> old(HasChunk(id, index))
                         && (old(chunks)[id][index].state == Uncertain || old(chunks)[id][index].state == Sending)
      ensures r.Thrown? ==> chunks == old(chunks) && operations == old(operations)
      ensures r.Ok? ==>
                && chunks == old(chunks)[id := old(chunks)[id][index :=
                                 ReconciledChunk(old(chunks)[id][index], how, messageId, now)]]
                && operations == old(operations)[id := ReconciledOperation(old(operations)[id], chunks[id], now)]
      ensures r.Ok? ==>
                && chunks[id][index].body == old(chunks)[id][index].body
                && chunks[id][index].state == (if how.AsConfirmed? then Confirmed else Pending)
                && chunks[id][index].messageId == (if how.AsConfirmed? then messageId else None)
                && chunks[id][index].confirmedAt == (if how.AsConfirmed? then Some(now) else None)
                && operations[id].claimedBy == None && operations[id].claimExpiresAt == None
                && (operations[id].status == OperationStatus.Complete <==>
                    forall i :: 0 <= i < |chunks[id]| ==> chunks[id][i].state == Confirmed)
                && operations[id].completedAt
                   == (if operations[id].status == OperationStatus.Complete then Some(now) else None)
                && (operations[id].status == OperationStatus.Complete || operations[id].status == Waiting)
    {
      if id !in chunks || index >= |chunks[id]| {
        return Thrown("delivery operation/chunk was not found");
      }
      var row := chunks[id][index];
      if row.state != Uncertain && row.state != Sending {
        return Thrown("only uncertain/sending chunks can be reconciled");
      }
      UpdateChunk(id, index, ReconciledChunk(row, how, messageId, now));
      var remaining := chunks[id];
      var complete := |remaining| > 0 && forall i :: 0 <= i < |remaining| ==> remaining[i].state == Confirmed;
      var op := operations[id];
      operations := operations[id := op.(
        status := if complete then OperationStatus.Complete else Waiting,
        updatedAt := now,
        completedAt := if complete then Some(now) else None,
        claimedBy := None,
        claimExpiresAt := None)];
      return Ok(());
    }
  }
}
