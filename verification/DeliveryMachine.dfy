/**
 * One delivery operation as a state machine. Each event is one store statement, one
 * network happening, a crash of the process, or a manual reconciliation; whatever can
 * come between two of them in the program can come between two of them here.
 */
module DeliveryMachine {
  import opened Wrappers
  import opened Utf16
  import opened DeliveryRows
  import opened TelegramTransport

  /**
   * Where the attempt in progress stands. `snap` is the chunk states `prepare` returned,
   * which the loop keeps consulting; `at` is the chunk the loop has reached.
   */
  datatype Worker =
    | Idle
    | Prepared(snap: seq<ChunkState>)
    | Ready(owner: Owner, snap: seq<ChunkState>, at: nat)
    | Refreshed(owner: Owner, snap: seq<ChunkState>, at: nat)
    | RowStarted(owner: Owner, snap: seq<ChunkState>, at: nat)
    | OnWire(owner: Owner, snap: seq<ChunkState>, at: nat, tries: nat, asked: Option<nat>)
    | Answered(owner: Owner, snap: seq<ChunkState>, at: nat, result: SendResult)
    | RowFailed(owner: Owner)
    | Closing(owner: Owner)

  /**
   * `chat` is what the reader has received; `wire` is a request that has been issued and
   * may still arrive, even after the process that issued it is gone.
   */
  datatype Sys = Sys(
    rows: seq<Chunk>,
    op: Option<Operation>,
    chat: seq<Text>,
    wire: Option<nat>,
    worker: Worker)

  datatype Event =
    | Prepare(now: int)
    | CompleteConfirmed(now: int)
    | Refuse
    | Claim(owner: Owner, now: int, leaseMs: int)
    | Skip
    | Refresh(now: int, leaseMs: int)
    | StartRow
    | StartOperation(now: int)
    | Fetch
    | Deliver
    | Drop
    | Observe(answer: Fetched)
    | Confirm(now: int)
    | FailRow(error: string)
    | NoteFailure(now: int)
    | Finish(now: int)
    | Release(now: int)
    | Throw
    | Crash
    | Reconcile(index: nat, how: Resolution, messageId: Option<int>, now: int)

  /** The digest being delivered and the notifier's retry budget. */
  datatype Job = Job(digest: seq<Text>, maxRetries: nat)

  predicate InFlight(state: ChunkState) {
    state == Sending || state == Uncertain
  }

  predicate Settled(snap: seq<ChunkState>) {
    forall i :: 0 <= i < |snap| ==> !InFlight(snap[i])
  }

  predicate AllStatesConfirmed(snap: seq<ChunkState>) {
    forall i :: 0 <= i < |snap| ==> snap[i] == Confirmed
  }

  predicate Leased(w: Worker) {
    w.Ready? || w.Refreshed? || w.RowStarted? || w.OnWire? || w.Answered? || w.RowFailed?
  }

  predicate MidSend(w: Worker) {
    w.RowStarted? || w.OnWire? || w.Answered?
  }

  /** The attempt has started chunk `i` and has not yet recorded how the send went. */
  predicate SendingNow(w: Worker, i: nat) {
    MidSend(w) && w.at == i
  }

  /** ... and has not yet learned that it was acknowledged. */
  predicate Undecided(w: Worker, i: nat) {
    SendingNow(w, i) && !(w.Answered? && w.result.Acknowledged?)
  }

  function Initial(): Sys {
    Sys([], None, [], None, Idle)
  }

  /** When an event can happen. */
  ghost predicate Enabled(job: Job, s: Sys, e: Event) {
    var w := s.worker;
    match e
    case Prepare(_) => w.Idle?
    case CompleteConfirmed(_) => w.Prepared? && s.op.Some? && AllStatesConfirmed(w.snap)
    case Refuse => w.Prepared? && !AllStatesConfirmed(w.snap) && !Settled(w.snap)
    case Claim(_, _, _) => w.Prepared? && s.op.Some? && !AllStatesConfirmed(w.snap) && Settled(w.snap)
    case Skip => w.Ready? && w.at < |w.snap| && w.snap[w.at] == Confirmed
    case Refresh(_, _) => w.Ready? && s.op.Some? && w.at < |w.snap| && w.snap[w.at] != Confirmed
    case StartRow => w.Refreshed? && w.at < |s.rows|
    case StartOperation(_) => w.RowStarted? && s.op.Some?
    case Fetch => w.OnWire? && w.asked == None
    case Deliver => s.wire.Some? && s.wire.value < |job.digest|
    case Drop => s.wire.Some?
    case Observe(f) => w.OnWire? && w.asked.Some? && Honest(f, w.asked.value, |s.chat|)
    case Confirm(_) => w.Answered? && w.result.Acknowledged? && w.at < |s.rows|
    case FailRow(_) => w.Answered? && w.result.NotSent? && w.at < |s.rows|
    case NoteFailure(_) => w.RowFailed? && s.op.Some?
    case Finish(_) => w.Ready? && w.at == |w.snap| && s.op.Some?
    case Release(_) => w.Closing? && s.op.Some?
    case Throw => Leased(w)
    case Crash => true
    case Reconcile(i, _, _, _) => s.op.Some? && CanReconcile(s.rows, i)
  }

  /** The state after an event. */
  ghost function Do(job: Job, s: Sys, e: Event): Sys
    requires Enabled(job, s, e)
  {
    var w := s.worker;
    match e
    case Prepare(now) =>
      var rows := InsertMissing(s.rows, job.digest);
      var op := if s.op.Some? then s.op.value else FreshOperation(now);
      s.(rows := rows, op := Some(op),
         worker := if ContentMatches(rows, job.digest) then Prepared(States(rows)) else Idle)
    case CompleteConfirmed(now) => s.(op := Some(WithCompletion(s.op.value, now)), worker := Idle)
    case Refuse => s.(worker := Idle)
    case Claim(owner, now, leaseMs) =>
      if CanClaim(s.op.value, owner, now)
      then s.(op := Some(WithClaim(s.op.value, owner, now, leaseMs)), worker := Ready(owner, w.snap, 0))
      else s.(worker := Idle)
    case Skip => s.(worker := Ready(w.owner, w.snap, w.at + 1))
    case Refresh(now, leaseMs) =>
      if CanClaim(s.op.value, w.owner, now)
      then s.(op := Some(WithClaim(s.op.value, w.owner, now, leaseMs)), worker := Refreshed(w.owner, w.snap, w.at))
      else s.(worker := Closing(w.owner))
    case StartRow =>
      s.(rows := s.rows[w.at := MarkSending(s.rows[w.at])], worker := RowStarted(w.owner, w.snap, w.at))
    case StartOperation(now) =>
      s.(op := Some(WithStatus(s.op.value, InProgress, now)), worker := OnWire(w.owner, w.snap, w.at, 0, None))
    case Fetch =>
      s.(wire := Some(w.at), worker := w.(asked := Some(|s.chat|)))
    case Deliver =>
      s.(chat := s.chat + [job.digest[s.wire.value]], wire := None)
    case Drop => s.(wire := None)
    case Observe(f) =>
      s.(wire := if ProvesUndelivered(f) then None else s.wire,
         worker := match Read(f, w.tries < job.maxRetries)
                   case TryAgain => OnWire(w.owner, w.snap, w.at, w.tries + 1, None)
                   case Final(result) => Answered(w.owner, w.snap, w.at, result))
    case Confirm(now) =>
      s.(rows := s.rows[w.at := MarkConfirmed(s.rows[w.at], Some(w.result.messageId), now)],
         worker := Ready(w.owner, w.snap, w.at + 1))
    case FailRow(error) =>
      s.(rows := s.rows[w.at := if w.result.uncertain then MarkUncertain(s.rows[w.at], error)
                                else MarkFailed(s.rows[w.at], error)],
         worker := RowFailed(w.owner))
    case NoteFailure(now) =>
      s.(op := Some(WithStatus(s.op.value, Broken, now)), worker := Closing(w.owner))
    case Finish(now) => s.(op := Some(WithCompletion(s.op.value, now)), worker := Closing(w.owner))
    case Release(now) => s.(op := Some(WithRelease(s.op.value, w.owner, now)), worker := Idle)
    case Throw => s.(worker := Closing(w.owner))
    case Crash => s.(worker := Idle)
    case Reconcile(i, how, messageId, now) =>
      var rows := s.rows[i := ReconciledChunk(s.rows[i], how, messageId, now)];
      s.(rows := rows, op := Some(ReconciledOperation(s.op.value, rows, now)))
  }

  // ----- runs

  /** Every event of `es` can happen, one after the other, from `s`. */
  ghost predicate Feasible(job: Job, s: Sys, es: seq<Event>)
    decreases |es|, 0
  {
    es == [] ||
    (var before := es[..|es| - 1];
     Feasible(job, s, before) && Enabled(job, After(job, s, before), es[|es| - 1]))
  }

  ghost function After(job: Job, s: Sys, es: seq<Event>): Sys
    requires Feasible(job, s, es)
    decreases |es|, 1
  {
    if es == [] then s
    else Do(job, After(job, s, es[..|es| - 1]), es[|es| - 1])
  }

  lemma Extend(job: Job, s: Sys, es: seq<Event>, e: Event)
    requires Feasible(job, s, es) && Enabled(job, After(job, s, es), e)
    ensures Feasible(job, s, es + [e])
    ensures After(job, s, es + [e]) == Do(job, After(job, s, es), e)
  {
    assert (es + [e])[..|es + [e]| - 1] == es;
  }

  lemma {:induction false} Prepend(job: Job, s: Sys, e: Event, es: seq<Event>)
    requires Enabled(job, s, e) && Feasible(job, Do(job, s, e), es)
    ensures Feasible(job, s, [e] + es)
    ensures After(job, s, [e] + es) == After(job, Do(job, s, e), es)
  {
    hide Enabled, Do;
    if es == [] {
      Extend(job, s, [], e);
      assert [e] + es == [] + [e];
    } else {
      var before := es[..|es| - 1];
      var last := es[|es| - 1];
      Prepend(job, s, e, before);
      Extend(job, s, [e] + before, last);
      assert [e] + es == ([e] + before) + [last];
    }
  }

  ghost predicate NoReconcile(es: seq<Event>) {
    forall i :: 0 <= i < |es| ==> !es[i].Reconcile?
  }

  /**
   * The one reconciliation that can close an operation too early: the last chunk is declared
   * confirmed while its request is out, or has failed and the failure is not written yet.
   */
  predicate Strands(s: Sys, e: Event) {
    && e.Reconcile? && e.how == AsConfirmed && e.index + 1 == |s.rows|
    && (s.worker.OnWire? || (s.worker.Answered? && s.worker.result.NotSent?)) && s.worker.at == e.index
  }

  ghost predicate NeverStrands(job: Job, s: Sys, es: seq<Event>)
    requires Feasible(job, s, es)
    decreases |es|
  {
    es == [] ||
    (var before := es[..|es| - 1];
     NeverStrands(job, s, before) && !Strands(After(job, s, before), es[|es| - 1]))
  }

  // ----- the shape of the rows, on every run

  /** Chunks before `k` are confirmed, chunk `k` is not, and later ones are untouched. */
  predicate Front(rows: seq<Chunk>, k: nat) {
    && k <= |rows|
    && (forall j :: 0 <= j < k ==> rows[j].state == Confirmed)
    && (k < |rows| ==> rows[k].state != Confirmed)
    && (forall j :: k < j < |rows| ==> rows[j].state == Pending)
  }

  predicate Agrees(rows: seq<Chunk>, snap: seq<ChunkState>, from: nat) {
    |snap| == |rows| && forall j :: from <= j < |rows| ==> rows[j].state == snap[j]
  }

  predicate WorkerFits(s: Sys) {
    var w := s.worker;
    match w
    case Idle => true
    case Prepared(snap) => s.op.Some? && |snap| == |s.rows| && (Settled(snap) ==> Agrees(s.rows, snap, 0))
    case Ready(_, snap, at) =>
      && s.op.Some? && Settled(snap) && at <= |s.rows|
      && (forall j :: 0 <= j < at ==> s.rows[j].state == Confirmed)
      && Agrees(s.rows, snap, at)
    case Refreshed(_, snap, at) =>
      && s.op.Some? && Settled(snap) && at < |s.rows|
      && (forall j :: 0 <= j < at ==> s.rows[j].state == Confirmed)
      && Agrees(s.rows, snap, at) && snap[at] != Confirmed
    case RowFailed(_) => s.op.Some?
    case Closing(_) => s.op.Some?
    case _ =>
      && s.op.Some? && Settled(w.snap) && w.at < |s.rows|
      && (forall j :: 0 <= j < w.at ==> s.rows[j].state == Confirmed)
      && (forall j :: w.at < j < |s.rows| ==> s.rows[j].state == Pending)
      && Agrees(s.rows, w.snap, w.at + 1)
  }

  ghost predicate Shaped(job: Job, s: Sys, k: nat) {
    && (s.op.None? ==> s.rows == [] && s.worker.Idle?)
    && (s.op.Some? ==> ContentMatches(s.rows, job.digest))
    && Front(s.rows, k)
    && WorkerFits(s)
  }

  predicate WritesRows(e: Event) {
    e.Prepare? || e.StartRow? || e.Confirm? || e.FailRow? || e.Reconcile?
  }

  lemma ShapedPrepare(job: Job, s: Sys, e: Event, k: nat)
    requires Shaped(job, s, k) && Enabled(job, s, e) && e.Prepare?
    ensures Do(job, s, e).rows == if s.op.None? then InsertMissing([], job.digest) else s.rows
    ensures Shaped(job, Do(job, s, e), k)
  {
    var t := Do(job, s, e);
    if s.op.None? {
      assert forall j :: 0 <= j < |t.rows| ==> t.rows[j] == FreshChunk(job.digest[j]);
    } else {
      assert t.rows == s.rows;
    }
  }

  lemma ShapedStartRow(job: Job, s: Sys, e: Event, k: nat)
    requires Shaped(job, s, k) && Enabled(job, s, e) && e.StartRow?
    ensures Shaped(job, Do(job, s, e), k) && s.worker.at == k
  {
    var at := s.worker.at;
    assert s.rows[at].state == s.worker.snap[at];
    assert at == k;
    assert forall j :: at < j < |s.rows| ==> s.rows[j].state == Pending;
  }

  lemma ShapedOutcome(job: Job, s: Sys, e: Event, k: nat)
    requires Shaped(job, s, k) && Enabled(job, s, e) && (e.Confirm? || e.FailRow?)
    ensures Shaped(job, Do(job, s, e), if e.Confirm? then s.worker.at + 1 else s.worker.at)
  {
  }

  lemma ReconcileFits(s: Sys, t: Sys, k: nat)
    requires WorkerFits(s) && Front(s.rows, k) && k < |s.rows| && InFlight(s.rows[k].state)
    requires s.op.Some? && t.op.Some? && t.worker == s.worker
    requires |t.rows| == |s.rows| && forall j :: 0 <= j < |s.rows| && j != k ==> t.rows[j] == s.rows[j]
    ensures WorkerFits(t)
  {
    var w := s.worker;
    if w.Ready? || w.Refreshed? || (w.Prepared? && Settled(w.snap)) {
      assert false;
    }
  }

  lemma ShapedReconcile(job: Job, s: Sys, e: Event, k: nat)
    requires Shaped(job, s, k) && Enabled(job, s, e) && e.Reconcile?
    ensures e.index == k
    ensures Shaped(job, Do(job, s, e), if e.how == AsConfirmed then k + 1 else k)
  {
    var t := Do(job, s, e);
    assert e.index == k;
    assert t.rows == s.rows[k := ReconciledChunk(s.rows[k], e.how, e.messageId, e.now)];
    assert Front(t.rows, if e.how == AsConfirmed then k + 1 else k);
    ReconcileFits(s, t, k);
  }

  /** Events between the claim and the end of a send that leave the rows alone. */
  predicate WhileSending(e: Event) {
    e.Skip? || e.Refresh? || e.StartOperation? || e.Fetch? || e.Deliver? || e.Drop? || e.Observe?
  }

  lemma ShapedWhileSending(job: Job, s: Sys, e: Event, k: nat)
    requires Shaped(job, s, k) && Enabled(job, s, e) && WhileSending(e)
    ensures Shaped(job, Do(job, s, e), k)
  {
    hide InsertMissing, States, Read, Honest, ProvesUndelivered, CanClaim;
  }

  lemma ShapedElsewhere(job: Job, s: Sys, e: Event, k: nat)
    requires Shaped(job, s, k) && Enabled(job, s, e) && !WritesRows(e) && !WhileSending(e)
    ensures Shaped(job, Do(job, s, e), k)
  {
    hide InsertMissing, States, Read, Honest, ProvesUndelivered, CanClaim;
  }

  /** The front after an event, and the shape it keeps. */
  lemma ShapedStep(job: Job, s: Sys, e: Event, k: nat) returns (k': nat)
    requires Shaped(job, s, k) && Enabled(job, s, e)
    ensures Shaped(job, Do(job, s, e), k')
    ensures !e.Confirm? && !e.FailRow? && !e.Reconcile? ==> k' == k
    ensures e.Confirm? ==> k' == s.worker.at + 1
    ensures e.FailRow? ==> k' == s.worker.at
  {
    hide Do, Shaped;
    k' := k;
    match e {
      case Prepare(_) => ShapedPrepare(job, s, e, k);
      case StartRow => ShapedStartRow(job, s, e, k);
      case Confirm(_) =>
        ShapedOutcome(job, s, e, k);
        k' := s.worker.at + 1;
      case FailRow(_) =>
        ShapedOutcome(job, s, e, k);
        k' := s.worker.at;
      case Reconcile(_, how, _, _) =>
        ShapedReconcile(job, s, e, k);
        k' := if how == AsConfirmed then k + 1 else k;
      case _ =>
        if WhileSending(e) {
          ShapedWhileSending(job, s, e, k);
        } else {
          ShapedElsewhere(job, s, e, k);
        }
    }
  }

  lemma {:induction false} ShapedAlways(job: Job, es: seq<Event>) returns (k: nat)
    requires Feasible(job, Initial(), es)
    ensures Shaped(job, After(job, Initial(), es), k)
  {
    if es == [] {
      k := 0;
    } else {
      var before := es[..|es| - 1];
      k := ShapedAlways(job, before);
      k := ShapedStep(job, After(job, Initial(), before), es[|es| - 1], k);
    }
  }
}
