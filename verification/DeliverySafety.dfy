/**
 * Whole-run theorems about one delivery: what the chat shows, what happens to confirmed
 * chunks, and exactly when a manual reconciliation is permanent.
 */
module DeliverySafety {
  import opened Wrappers
  import opened Utf16
  import opened DeliveryRows
  import opened TelegramTransport
  import opened DeliveryMachine

  function ConfirmedCount(rows: seq<Chunk>): nat {
    if rows == [] then 0
    else ConfirmedCount(rows[..|rows| - 1]) + if rows[|rows| - 1].state == Confirmed then 1 else 0
  }

  lemma {:induction false} FrontIsConfirmedCount(rows: seq<Chunk>, k: nat)
    requires Front(rows, k)
    ensures ConfirmedCount(rows) == k
  {
    if rows != [] {
      var n := |rows| - 1;
      FrontIsConfirmedCount(rows[..n], if k == n + 1 then n else k);
    }
  }

  // ----- the transcript, on runs without manual reconciliation

  ghost predicate ChatFits(job: Job, s: Sys, k: nat) {
    && |s.rows| <= |job.digest| && k <= |s.rows|
    && (s.wire.Some? ==>
          s.wire.value == k && k < |s.rows| && InFlight(s.rows[k].state) && s.chat == job.digest[..k])
    && (s.chat == job.digest[..k]
        || (k < |s.rows| && InFlight(s.rows[k].state) && s.chat == job.digest[..k + 1]))
  }

  ghost predicate WorkerKnows(job: Job, s: Sys) {
    var w := s.worker;
    MidSend(w) ==>
      && w.at < |s.rows| <= |job.digest|
      && s.rows[w.at].state == Sending
      && (w.RowStarted? ==> s.wire == None && s.chat == job.digest[..w.at])
      && (w.OnWire? && w.asked == None ==> s.wire == None && s.chat == job.digest[..w.at])
      && (w.OnWire? && w.asked.Some? ==> w.asked.value == w.at)
      && (w.Answered? && w.result.Acknowledged? ==> s.wire == None && s.chat == job.digest[..w.at + 1])
      && (w.Answered? && w.result.NotSent? && !w.result.uncertain ==> s.wire == None && s.chat == job.digest[..w.at])
  }

  ghost predicate Told(job: Job, s: Sys, k: nat) {
    Shaped(job, s, k) && ChatFits(job, s, k) && WorkerKnows(job, s)
  }

  lemma ToldOnTheWire(job: Job, s: Sys, e: Event, k: nat)
    requires Told(job, s, k) && Enabled(job, s, e)
    requires e.Fetch? || e.Deliver? || e.Drop?
    ensures ChatFits(job, Do(job, s, e), k) && WorkerKnows(job, Do(job, s, e))
  {
  }

  lemma ToldObserve(job: Job, s: Sys, e: Event, k: nat)
    requires Told(job, s, k) && Enabled(job, s, e) && e.Observe?
    ensures ChatFits(job, Do(job, s, e), k) && WorkerKnows(job, Do(job, s, e))
  {
  }

  lemma ToldWrites(job: Job, s: Sys, e: Event, k: nat, k': nat)
    requires Told(job, s, k) && Enabled(job, s, e)
    requires e.StartRow? || e.Confirm? || e.FailRow?
    requires Shaped(job, Do(job, s, e), k')
    requires k' == if e.Confirm? then s.worker.at + 1 else if e.FailRow? then s.worker.at else k
    ensures ChatFits(job, Do(job, s, e), k') && WorkerKnows(job, Do(job, s, e))
  {
    if e.StartRow? {
      ShapedStartRow(job, s, e, k);
    }
    assert s.worker.at == k;
  }

  lemma ToldElsewhere(job: Job, s: Sys, e: Event, k: nat)
    requires Told(job, s, k) && Enabled(job, s, e)
    requires !WritesRows(e) && !e.Fetch? && !e.Deliver? && !e.Drop? && !e.Observe?
    ensures ChatFits(job, Do(job, s, e), k) && WorkerKnows(job, Do(job, s, e))
  {
  }

  lemma ToldPrepare(job: Job, s: Sys, e: Event, k: nat)
    requires Told(job, s, k) && Enabled(job, s, e) && e.Prepare?
    requires Shaped(job, Do(job, s, e), k)
    ensures ChatFits(job, Do(job, s, e), k) && WorkerKnows(job, Do(job, s, e))
  {
  }

  lemma ToldStep(job: Job, s: Sys, e: Event, k: nat) returns (k': nat)
    requires Told(job, s, k) && Enabled(job, s, e) && !e.Reconcile?
    ensures Told(job, Do(job, s, e), k')
  {
    hide Do, Shaped, ChatFits, WorkerKnows;
    k' := ShapedStep(job, s, e, k);
    match e {
      case Prepare(_) => ToldPrepare(job, s, e, k);
      case Fetch => ToldOnTheWire(job, s, e, k);
      case Deliver => ToldOnTheWire(job, s, e, k);
      case Drop => ToldOnTheWire(job, s, e, k);
      case Observe(_) => ToldObserve(job, s, e, k);
      case StartRow => ToldWrites(job, s, e, k, k');
      case Confirm(_) => ToldWrites(job, s, e, k, k');
      case FailRow(_) => ToldWrites(job, s, e, k, k');
      case _ => ToldElsewhere(job, s, e, k);
    }
  }

  lemma {:induction false} ToldAlways(job: Job, es: seq<Event>) returns (k: nat)
    requires Feasible(job, Initial(), es) && NoReconcile(es)
    ensures Told(job, After(job, Initial(), es), k)
  {
    if es == [] {
      k := 0;
    } else {
      var before := es[..|es| - 1];
      k := ToldAlways(job, before);
      k := ToldStep(job, After(job, Initial(), before), es[|es| - 1], k);
    }
  }

  /**
   * On every run without manual reconciliation, with crashes anywhere and requests that
   * arrive arbitrarily late: the chat is exactly the first k bodies, where k is the number
   * of confirmed chunks, or the first k + 1 while chunk k is sending or uncertain.
   */
  lemma TranscriptIsConfirmedPrefix(job: Job, es: seq<Event>)
    requires Feasible(job, Initial(), es) && NoReconcile(es)
    ensures var s := After(job, Initial(), es);
            var k := ConfirmedCount(s.rows);
            && k <= |s.rows| <= |job.digest|
            && (|| s.chat == job.digest[..k]
                || (k < |s.rows| && InFlight(s.rows[k].state) && s.chat == job.digest[..k + 1]))
  {
    var k := ToldAlways(job, es);
    FrontIsConfirmedCount(After(job, Initial(), es).rows, k);
  }

  /** No chunk is delivered twice or out of order: message number i is body number i. */
  lemma NothingSentTwice(job: Job, es: seq<Event>)
    requires Feasible(job, Initial(), es) && NoReconcile(es)
    ensures After(job, Initial(), es).chat <= job.digest
  {
    TranscriptIsConfirmedPrefix(job, es);
  }

  /** A digest whose chunks are all confirmed has been received whole, once, in order. */
  lemma AllConfirmedMeansDelivered(job: Job, es: seq<Event>)
    requires Feasible(job, Initial(), es) && NoReconcile(es)
    requires var s := After(job, Initial(), es); s.op.Some? && AllConfirmed(s.rows)
    ensures After(job, Initial(), es).chat == job.digest
  {
    var k := ToldAlways(job, es);
    assert job.digest[..|job.digest|] == job.digest;
  }

  // ----- confirmed chunks, on runs with reconciliation anywhere

  /** Chunk `i` is confirmed and no undecided send is about to overwrite that. */
  ghost predicate Safe(s: Sys, i: nat) {
    i < |s.rows| && s.rows[i].state == Confirmed && !Undecided(s.worker, i)
  }

  lemma SafeStep(job: Job, s: Sys, e: Event, k: nat, i: nat)
    requires Shaped(job, s, k) && Enabled(job, s, e) && Safe(s, i)
    ensures Safe(Do(job, s, e), i)
    ensures !SendingNow(s.worker, i) ==>
              Do(job, s, e).rows[i] == s.rows[i] && !SendingNow(Do(job, s, e).worker, i)
  {
    if e.Prepare? {
      ShapedPrepare(job, s, e, k);
    }
  }

  /** Once safe, a confirmed chunk stays confirmed for ever, whatever happens. */
  lemma {:induction false} SafeForever(job: Job, s: Sys, k: nat, es: seq<Event>, i: nat) returns (k': nat)
    requires Shaped(job, s, k) && Feasible(job, s, es) && Safe(s, i)
    ensures Shaped(job, After(job, s, es), k')
    ensures Safe(After(job, s, es), i)
    ensures !SendingNow(s.worker, i) ==>
              After(job, s, es).rows[i] == s.rows[i] && !SendingNow(After(job, s, es).worker, i)
  {
    if es == [] {
      k' := k;
    } else {
      var before := es[..|es| - 1];
      var k1 := SafeForever(job, s, k, before, i);
      var last := After(job, s, before);
      SafeStep(job, last, es[|es| - 1], k1, i);
      k' := ShapedStep(job, last, es[|es| - 1], k1);
    }
  }

  /** A complete operation has every chunk confirmed, and no send about to undo that. */
  ghost predicate ClosedRight(s: Sys) {
    s.op.Some? && s.op.value.status == Complete ==>
      AllConfirmed(s.rows) && !s.worker.OnWire? && !(s.worker.Answered? && s.worker.result.NotSent?)
  }

  lemma ClosedRightReconcile(job: Job, s: Sys, e: Event, k: nat)
    requires Shaped(job, s, k) && Enabled(job, s, e) && ClosedRight(s) && !Strands(s, e) && e.Reconcile?
    ensures ClosedRight(Do(job, s, e))
  {
    ShapedReconcile(job, s, e, k);
    hide Shaped;
  }

  lemma ClosedRightWrite(job: Job, s: Sys, e: Event, k: nat)
    requires Shaped(job, s, k) && Enabled(job, s, e) && ClosedRight(s) && WritesRows(e) && !e.Reconcile?
    ensures ClosedRight(Do(job, s, e))
  {
    hide States, Read, Honest, CanClaim;
    if e.Prepare? {
      ShapedPrepare(job, s, e, k);
    } else if e.StartRow? {
      ShapedStartRow(job, s, e, k);
    }
  }

  lemma ClosedRightElsewhere(job: Job, s: Sys, e: Event, k: nat)
    requires Shaped(job, s, k) && Enabled(job, s, e) && ClosedRight(s) && !WritesRows(e)
    ensures ClosedRight(Do(job, s, e))
  {
    hide InsertMissing, States, Read, Honest, ProvesUndelivered, CanClaim;
  }

  lemma ClosedRightStep(job: Job, s: Sys, e: Event, k: nat)
    requires Shaped(job, s, k) && Enabled(job, s, e) && ClosedRight(s) && !Strands(s, e)
    ensures ClosedRight(Do(job, s, e))
  {
    hide Shaped, Enabled, ClosedRight, Strands, Do;
    if e.Reconcile? {
      ClosedRightReconcile(job, s, e, k);
    } else if WritesRows(e) {
      ClosedRightWrite(job, s, e, k);
    } else {
      ClosedRightElsewhere(job, s, e, k);
    }
  }

  lemma {:induction false} ClosedRightAlways(job: Job, s: Sys, k: nat, es: seq<Event>) returns (k': nat)
    requires Shaped(job, s, k) && ClosedRight(s)
    requires Feasible(job, s, es) && NeverStrands(job, s, es)
    ensures Shaped(job, After(job, s, es), k') && ClosedRight(After(job, s, es))
  {
    if es == [] {
      k' := k;
    } else {
      var before := es[..|es| - 1];
      k' := ClosedRightAlways(job, s, k, before);
      ClosedRightStep(job, After(job, s, before), es[|es| - 1], k');
      k' := ShapedStep(job, After(job, s, before), es[|es| - 1], k');
    }
  }

  /**
   * Every reachable operation, crashes and reconciliations included, reads confirmed*,
   * then at most one failed, sending or uncertain chunk, then pending*.
   */
  lemma {:induction false} RowsKeepTheirShape(job: Job, es: seq<Event>)
    requires Feasible(job, Initial(), es)
    ensures var rows := After(job, Initial(), es).rows;
            && Front(rows, ConfirmedCount(rows))
            && (rows == [] || ContentMatches(rows, job.digest))
  {
    var k := ShapedAlways(job, es);
    FrontIsConfirmedCount(After(job, Initial(), es).rows, k);
  }

  /** On a run without a stranding reconciliation, complete means that every chunk is confirmed. */
  lemma CompleteMeansAllConfirmed(job: Job, es: seq<Event>)
    requires Feasible(job, Initial(), es) && NeverStrands(job, Initial(), es)
    requires var s := After(job, Initial(), es); s.op.Some? && s.op.value.status == Complete
    ensures var rows := After(job, Initial(), es).rows;
            ContentMatches(rows, job.digest) && AllConfirmed(rows)
  {
    var k := ClosedRightAlways(job, Initial(), 0, es);
  }

  lemma FailsNow(job: Job, s: Sys, k: nat, i: nat) returns (es: seq<Event>)
    requires Shaped(job, s, k) && Undecided(s.worker, i) && s.worker.Answered?
    ensures Feasible(job, s, es) && NoReconcile(es) && After(job, s, es).op == s.op
    ensures i < |After(job, s, es).rows| && After(job, s, es).rows[i].state != Confirmed
  {
    Extend(job, s, [], FailRow("HTTP 500"));
    es := [FailRow("HTTP 500")];
    assert es == [] + es;
  }

  ghost function NextTowardsFailure(w: Worker): Event
    requires w.RowStarted? || w.OnWire?
  {
    if w.RowStarted? then StartOperation(0)
    else if w.asked == None then Fetch
    else Observe(Responded(500, Unparseable))
  }

  lemma UndecidedStep(job: Job, s: Sys, k: nat, i: nat)
    requires Shaped(job, s, k) && Undecided(s.worker, i) && !s.worker.Answered?
    ensures var e := NextTowardsFailure(s.worker);
            && Enabled(job, s, e)
            && var t := Do(job, s, e);
               Shaped(job, t, k) && Undecided(t.worker, i)
               && (!s.worker.RowStarted? ==> t.op == s.op)
               && (s.worker.RowStarted? ==> t.worker.OnWire? && t.worker.asked == None)
               && (s.worker.OnWire? && s.worker.asked == None ==> t.worker.OnWire? && t.worker.asked.Some?)
               && (s.worker.OnWire? && s.worker.asked.Some? ==> t.worker.Answered?)
  {
    ShapedWhileSending(job, s, NextTowardsFailure(s.worker), k);
  }

  /** An undecided send can still end in a server error, and then chunk `i` is not confirmed. */
  lemma SendCanFail(job: Job, s: Sys, k: nat, i: nat) returns (es: seq<Event>)
    requires Shaped(job, s, k) && Undecided(s.worker, i)
    ensures Feasible(job, s, es) && NoReconcile(es)
    ensures !s.worker.RowStarted? ==> After(job, s, es).op == s.op
    ensures i < |After(job, s, es).rows| && After(job, s, es).rows[i].state != Confirmed
    decreases if s.worker.RowStarted? then 3
              else if s.worker.Answered? then 0
              else if s.worker.asked == None then 2 else 1
  {
    hide Shaped, Enabled, Do;
    if s.worker.Answered? {
      es := FailsNow(job, s, k, i);
    } else {
      var e := NextTowardsFailure(s.worker);
      UndecidedStep(job, s, k, i);
      es := SendCanFail(job, Do(job, s, e), k, i);
      Prepend(job, s, e, es);
      es := [e] + es;
    }
  }

  lemma {:induction false} NoReconcileNeverStrands(job: Job, s: Sys, es: seq<Event>)
    requires Feasible(job, s, es) && NoReconcile(es)
    ensures NeverStrands(job, s, es)
  {
    if es != [] {
      NoReconcileNeverStrands(job, s, es[..|es| - 1]);
    }
  }

  ghost predicate CompleteIsConfirmed(s: Sys) {
    s.op.Some? && s.op.value.status == Complete ==> AllConfirmed(s.rows)
  }

  lemma StrandedStaysComplete(job: Job, s: Sys, e: Event, k: nat)
    requires Shaped(job, s, k) && Enabled(job, s, e) && Strands(s, e)
    ensures var t := Do(job, s, e);
            && t.op.Some? && t.op.value.status == Complete
            && Undecided(t.worker, e.index) && !t.worker.RowStarted?
  {
    ShapedReconcile(job, s, e, k);
  }

  /**
   * The condition is exact: a step strands the operation if and only if some continuation,
   * itself free of stranding steps, ends complete with a chunk that is not confirmed.
   */
  lemma CompleteIsConfirmedExactly(job: Job, es: seq<Event>, e: Event)
    requires Feasible(job, Initial(), es) && NeverStrands(job, Initial(), es)
    requires Enabled(job, After(job, Initial(), es), e)
    ensures var s := After(job, Initial(), es);
            !Strands(s, e) <==>
            (forall more :: Feasible(job, Do(job, s, e), more) && NeverStrands(job, Do(job, s, e), more) ==>
                              CompleteIsConfirmed(After(job, Do(job, s, e), more)))
  {
    var s := After(job, Initial(), es);
    var k := ClosedRightAlways(job, Initial(), 0, es);
    var t := Do(job, s, e);
    var k' := ShapedStep(job, s, e, k);
    hide Do, Enabled, Shaped;
    if Strands(s, e) {
      StrandedStaysComplete(job, s, e, k);
      var more := SendCanFail(job, t, k', e.index);
      NoReconcileNeverStrands(job, t, more);
      assert !CompleteIsConfirmed(After(job, t, more));
    } else {
      ClosedRightStep(job, s, e, k);
      forall more | Feasible(job, t, more) && NeverStrands(job, t, more)
        ensures CompleteIsConfirmed(After(job, t, more))
      {
        var k'' := ClosedRightAlways(job, t, k', more);
      }
    }
  }

  /** An acknowledged send writes its own confirmation over the one that is there. */
  lemma ConfirmedAgain(job: Job, s: Sys, i: nat) returns (more: seq<Event>)
    requires SendingNow(s.worker, i) && !Undecided(s.worker, i) && i < |s.rows|
    ensures Feasible(job, s, more) && i < |After(job, s, more).rows| && After(job, s, more).rows[i] != s.rows[i]
  {
    var known := s.rows[i].confirmedAt;
    var e := Confirm(if known.Some? then known.value + 1 else 0);
    Extend(job, s, [], e);
    more := [e];
    assert more == [] + [e];
  }

  /**
   * A confirmed chunk stays confirmed on every continuation exactly when no attempt has a
   * send of it undecided, and its row stays the very same exactly when none is sending it.
   */
  lemma ConfirmedNeverChanges(job: Job, es: seq<Event>, i: nat)
    requires Feasible(job, Initial(), es)
    requires var s := After(job, Initial(), es); i < |s.rows| && s.rows[i].state == Confirmed
    ensures var s := After(job, Initial(), es);
            !Undecided(s.worker, i) <==>
            (forall more :: Feasible(job, s, more) ==>
                              i < |After(job, s, more).rows| && After(job, s, more).rows[i].state == Confirmed)
    ensures var s := After(job, Initial(), es);
            !SendingNow(s.worker, i) <==>
            (forall more :: Feasible(job, s, more) ==>
                              i < |After(job, s, more).rows| && After(job, s, more).rows[i] == s.rows[i])
  {
    var s := After(job, Initial(), es);
    var k := ShapedAlways(job, es);
    if Undecided(s.worker, i) {
      var more := SendCanFail(job, s, k, i);
    } else {
      if SendingNow(s.worker, i) {
        var more := ConfirmedAgain(job, s, i);
      }
      forall more | Feasible(job, s, more)
        ensures i < |After(job, s, more).rows| && After(job, s, more).rows[i].state == Confirmed
        ensures !SendingNow(s.worker, i) ==> After(job, s, more).rows[i] == s.rows[i]
      {
        var k' := SafeForever(job, s, k, more, i);
      }
    }
  }

  /**
   * Declaring chunk `i` confirmed by hand is final exactly when no attempt has a send of
   * that chunk still undecided; otherwise the attempt's own failure write undoes it.
   */
  lemma ReconciledConfirmationIsFinal(job: Job, es: seq<Event>, i: nat, messageId: Option<int>, now: int)
    requires Feasible(job, Initial(), es)
    requires Enabled(job, After(job, Initial(), es), Reconcile(i, AsConfirmed, messageId, now))
    ensures var s := After(job, Initial(), es);
            var t := Do(job, s, Reconcile(i, AsConfirmed, messageId, now));
            !Undecided(s.worker, i) <==>
            (forall more :: Feasible(job, t, more) ==>
                              i < |After(job, t, more).rows| && After(job, t, more).rows[i].state == Confirmed)
  {
    var e := Reconcile(i, AsConfirmed, messageId, now);
    Extend(job, Initial(), es, e);
    ConfirmedNeverChanges(job, es + [e], i);
  }

  /** Preparing an operation never finds other content in its rows. */
  lemma PrepareAlwaysMatches(job: Job, es: seq<Event>, now: int)
    requires Feasible(job, Initial(), es)
    requires After(job, Initial(), es).worker.Idle?
    ensures var s := After(job, Initial(), es);
            var rows := InsertMissing(s.rows, job.digest);
            ContentMatches(rows, job.digest) && (s.op.Some? ==> rows == s.rows)
  {
    var k := ShapedAlways(job, es);
    ShapedPrepare(job, After(job, Initial(), es), Prepare(now), k);
  }

  // ----- a digest that is already delivered

  ghost predicate Finished(s: Sys) {
    s.op.Some? && AllConfirmed(s.rows) && !MidSend(s.worker)
  }

  lemma FinishedStep(job: Job, s: Sys, e: Event, k: nat)
    requires Shaped(job, s, k) && Enabled(job, s, e) && Finished(s)
    ensures Finished(Do(job, s, e)) && Do(job, s, e).rows == s.rows
    ensures !e.Fetch?
  {
    if e.Prepare? {
      ShapedPrepare(job, s, e, k);
    } else if e.StartRow? {
      ShapedStartRow(job, s, e, k);
    }
  }

  lemma {:induction false} FinishedForever(job: Job, s: Sys, k: nat, es: seq<Event>) returns (k': nat)
    requires Shaped(job, s, k) && Feasible(job, s, es) && Finished(s)
    ensures Shaped(job, After(job, s, es), k')
    ensures Finished(After(job, s, es)) && After(job, s, es).rows == s.rows
    ensures forall j :: 0 <= j < |es| ==> !es[j].Fetch?
  {
    hide Shaped, Do, Enabled, Finished;
    if es == [] {
      k' := k;
    } else {
      var before := es[..|es| - 1];
      k' := FinishedForever(job, s, k, before);
      FinishedStep(job, After(job, s, before), es[|es| - 1], k');
      k' := ShapedStep(job, After(job, s, before), es[|es| - 1], k');
    }
  }

  /**
   * Once a digest is fully confirmed nothing is ever sent for it again and its rows never
   * change, whatever is prepared, crashed or reconciled later.
   */
  lemma {:induction false} FullyConfirmedSendsNothing(job: Job, es: seq<Event>, more: seq<Event>)
    requires Feasible(job, Initial(), es)
    requires Finished(After(job, Initial(), es)) && Feasible(job, After(job, Initial(), es), more)
    ensures After(job, After(job, Initial(), es), more).rows == After(job, Initial(), es).rows
    ensures forall j :: 0 <= j < |more| ==> !more[j].Fetch?
  {
    var k := ShapedAlways(job, es);
    k := FinishedForever(job, After(job, Initial(), es), k, more);
  }

  /** Preparing a fully confirmed digest again leaves only closing the operation to do. */
  lemma PreparedAgainOnlyCloses(job: Job, es: seq<Event>, now: int)
    requires Feasible(job, Initial(), es)
    requires Finished(After(job, Initial(), es)) && After(job, Initial(), es).worker.Idle?
    ensures var t := Do(job, After(job, Initial(), es), Prepare(now));
            && (forall at :: Enabled(job, t, CompleteConfirmed(at)))
            && !Enabled(job, t, Refuse)
            && (forall owner, at, leaseMs :: !Enabled(job, t, Claim(owner, at, leaseMs)))
  {
    var k := ShapedAlways(job, es);
    ShapedPrepare(job, After(job, Initial(), es), Prepare(now), k);
  }

  // ----- an operation closed around a failed chunk

  lemma Follow(job: Job, es: seq<Event>, e: Event) returns (longer: seq<Event>, s: Sys)
    requires Feasible(job, Initial(), es) && Enabled(job, After(job, Initial(), es), e)
    ensures longer == es + [e]
    ensures Feasible(job, Initial(), longer) && s == After(job, Initial(), longer)
    ensures s == Do(job, After(job, Initial(), es), e)
    ensures NeverStrands(job, Initial(), longer) <==>
            NeverStrands(job, Initial(), es) && !Strands(After(job, Initial(), es), e)
  {
    Extend(job, Initial(), es, e);
    longer := es + [e];
    s := After(job, Initial(), longer);
    assert longer[..|longer| - 1] == es;
  }

  const ONE_BODY: Text := [72, 105]

  const ONE_CHUNK := Job([ONE_BODY], 0)

  lemma OneChunkPrepared() returns (es: seq<Event>, s: Sys)
    ensures Feasible(ONE_CHUNK, Initial(), es) && NeverStrands(ONE_CHUNK, Initial(), es)
    ensures s == After(ONE_CHUNK, Initial(), es)
    ensures s.op == Some(FreshOperation(0)) && s.rows == [FreshChunk(ONE_BODY)] && s.chat == []
    ensures s.worker == Prepared([Pending])
  {
    es := [];
    assert Feasible(ONE_CHUNK, Initial(), es) && NeverStrands(ONE_CHUNK, Initial(), es);
    assert After(ONE_CHUNK, Initial(), es) == Initial();
    hide Feasible, After, NeverStrands;
    es, s := Follow(ONE_CHUNK, es, Prepare(0));
    assert s.rows == [FreshChunk(ONE_BODY)];
    assert s.worker.snap == [Pending];
  }

  lemma OneChunkClaimed() returns (es: seq<Event>, s: Sys)
    ensures Feasible(ONE_CHUNK, Initial(), es) && NeverStrands(ONE_CHUNK, Initial(), es)
    ensures s == After(ONE_CHUNK, Initial(), es)
    ensures s.op.Some? && s.op.value.claimedBy == Some("worker") && s.op.value.status == InProgress
    ensures s.rows == [FreshChunk(ONE_BODY)] && s.chat == [] && s.worker == Ready("worker", [Pending], 0)
  {
    es, s := OneChunkPrepared();
    hide Feasible, After, NeverStrands;
    assert s.worker.snap[0] == Pending;
    es, s := Follow(ONE_CHUNK, es, Claim("worker", 0, 60000));
  }

  /** An attempt whose only request is on the wire. */
  lemma OneChunkOnTheWire() returns (es: seq<Event>, s: Sys)
    ensures Feasible(ONE_CHUNK, Initial(), es) && NeverStrands(ONE_CHUNK, Initial(), es)
    ensures s == After(ONE_CHUNK, Initial(), es)
    ensures s.op.Some? && s.rows == [MarkSending(FreshChunk(ONE_BODY))] && s.chat == []
    ensures s.worker.OnWire? && s.worker.at == 0 && s.worker.tries == 0 && s.worker.asked == Some(0)
  {
    es, s := OneChunkClaimed();
    hide Feasible, After, NeverStrands;
    es, s := Follow(ONE_CHUNK, es, Refresh(0, 60000));
    es, s := Follow(ONE_CHUNK, es, StartRow);
    assert s.rows == [MarkSending(FreshChunk(ONE_BODY))];
    es, s := Follow(ONE_CHUNK, es, StartOperation(0));
    es, s := Follow(ONE_CHUNK, es, Fetch);
  }

  /**
   * What a reconciliation in mid-send can do: the operator confirms the only chunk while
   * its send is pending, Telegram then refuses it, and the process dies before its second
   * write. The operation is complete, its chunk is failed, and no later attempt can claim it.
   */
  lemma ReconcilingMidSendCanStrandAChunk() returns (es: seq<Event>)
    ensures Feasible(ONE_CHUNK, Initial(), es) && !NeverStrands(ONE_CHUNK, Initial(), es)
    ensures var s := After(ONE_CHUNK, Initial(), es);
            && s.worker.Idle? && s.op.Some? && s.op.value.status == Complete
            && |s.rows| == 1 && s.rows[0].state == Failed && s.chat == []
            && forall owner, now :: !CanClaim(s.op.value, owner, now)
  {
    var s: Sys;
    es, s := OneChunkOnTheWire();
    hide Feasible, After, NeverStrands;
    es, s := Follow(ONE_CHUNK, es, Reconcile(0, AsConfirmed, None, 1));
    assert AllConfirmed(s.rows);
    es, s := Follow(ONE_CHUNK, es, Observe(Responded(400, Unparseable)));
    es, s := Follow(ONE_CHUNK, es, FailRow("HTTP 400"));
    es, s := Follow(ONE_CHUNK, es, Crash);
  }
}
