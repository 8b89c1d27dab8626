/**
 * The lease on a delivery operation, with any number of workers issuing statements against
 * the same row under one clock that never goes back. Nothing here assumes that attempts do
 * not overlap: a worker whose lease has run out may still write the status column.
 */
module DeliveryLease {
  import opened Wrappers
  import opened DeliveryRows

  datatype Statement =
    | Claim(owner: Owner, now: int, leaseMs: nat)
    | Release(owner: Owner, now: int)
    | SetStatus(status: OperationStatus, now: int)
    | Complete(now: int)
    | Reconcile(rows: seq<Chunk>, now: int)

  function Apply(op: Operation, s: Statement): Operation {
    match s
    case Claim(owner, now, leaseMs) => if CanClaim(op, owner, now) then WithClaim(op, owner, now, leaseMs) else op
    case Release(owner, now) => WithRelease(op, owner, now)
    case SetStatus(status, now) => WithStatus(op, status, now)
    case Complete(now) => WithCompletion(op, now)
    case Reconcile(rows, now) => ReconciledOperation(op, rows, now)
  }

  function Run(op: Operation, statements: seq<Statement>): Operation {
    if statements == [] then op
    else Apply(Run(op, statements[..|statements| - 1]), statements[|statements| - 1])
  }

  /** Times never decrease, from `start` through the statements to `end`. */
  predicate InOrder(start: int, statements: seq<Statement>, end: int) {
    && start <= end
    && (forall i :: 0 <= i < |statements| ==> start <= statements[i].now <= end)
    && (forall i, j :: 0 <= i < j < |statements| ==> statements[i].now <= statements[j].now)
  }

  /**
   * Statements that leave `owner`'s lease standing: it does not release, its refreshes use
   * the same lease length, nothing completes or reconciles the operation, and the status
   * writes are those of `startChunk`, `failChunk` and `markChunkUncertain`.
   */
  predicate LeavesLease(s: Statement, owner: Owner, leaseMs: nat) {
    match s
    case Claim(who, _, length) => who == owner ==> length == leaseMs
    case Release(who, _) => who != owner
    case SetStatus(status, _) => status == InProgress || status == Broken
    case Complete(_) => false
    case Reconcile(_, _) => false
  }

  /**
   * From a successful claim at `t` until `t + leaseMs`, with any statements by any workers in
   * between: the claim stands, refreshes only move its expiry later, its owner can always
   * refresh, and nobody else's claim succeeds.
   */
  lemma {:induction false} LeaseExcludesOthers(
    op: Operation, owner: Owner, t: int, leaseMs: nat, statements: seq<Statement>, now: int)
    requires CanClaim(op, owner, t)
    requires InOrder(t, statements, now) && now <= t + leaseMs
    requires forall i :: 0 <= i < |statements| ==> LeavesLease(statements[i], owner, leaseMs)
    ensures var after := Run(WithClaim(op, owner, t, leaseMs), statements);
            && after.claimedBy == Some(owner)
            && after.claimExpiresAt.Some? && t + leaseMs <= after.claimExpiresAt.value <= now + leaseMs
            && CanClaim(after, owner, now)
            && forall other :: other != owner ==> !CanClaim(after, other, now)
  {
    if statements != [] {
      var n := |statements| - 1;
      var before := statements[..n];
      LeaseExcludesOthers(op, owner, t, leaseMs, before, statements[n].now);
    }
  }

  /** The last statement that decides about the status, if any, leaves the operation complete. */
  predicate ClosedBy(statements: seq<Statement>) {
    if statements == [] then true
    else
      match statements[|statements| - 1]
      case Claim(_, _, _) => ClosedBy(statements[..|statements| - 1])
      case Release(_, _) => ClosedBy(statements[..|statements| - 1])
      case SetStatus(status, _) => status == OperationStatus.Complete
      case Complete(_) => true
      case Reconcile(rows, _) => rows != [] && AllConfirmed(rows)
  }

  lemma OpenToSomeone(op: Operation)
    ensures (forall owner, now :: !CanClaim(op, owner, now)) <==> op.status == OperationStatus.Complete
  {
    var owner := if op.claimedBy.Some? then op.claimedBy.value else "";
    if op.status != OperationStatus.Complete {
      assert CanClaim(op, owner, 0);
    }
  }

  lemma {:induction false} ClosedByTheLast(op: Operation, statements: seq<Statement>)
    requires op.status == OperationStatus.Complete
    ensures Run(op, statements).status == OperationStatus.Complete <==> ClosedBy(statements)
  {
    if statements != [] {
      ClosedByTheLast(op, statements[..|statements| - 1]);
    }
  }

  /**
   * No claim succeeds on a completed operation, whatever statements any workers have issued
   * since, exactly when the last of them that decides about its status closes it.
   */
  lemma {:induction false} CompletedStaysClosed(op: Operation, statements: seq<Statement>)
    requires op.status == OperationStatus.Complete
    ensures (forall owner, now :: !CanClaim(Run(op, statements), owner, now)) <==> ClosedBy(statements)
  {
    ClosedByTheLast(op, statements);
    OpenToSomeone(Run(op, statements));
  }

  /**
   * The status writes are unconditional, so a worker that outlived its lease can reopen an
   * operation another worker has closed, and then anyone can claim it.
   */
  lemma StaleStatusWriteReopens(op: Operation, now: int)
    ensures var closed := Run(op, [Statement.Complete(now)]);
            && (forall owner, at :: !CanClaim(closed, owner, at))
            && (forall owner, at :: CanClaim(Run(closed, [SetStatus(InProgress, now)]), owner, at))
  {
    assert [Statement.Complete(now)][..0] == [];
    assert [SetStatus(InProgress, now)][..0] == [];
  }
}
