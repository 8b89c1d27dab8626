/**
 * TelegramNotifier.notify over the repository, step by step, with the process dying or the
 * store throwing between any two steps and the network delivering whenever it likes.
 *
 * `log` records which event of the delivery machine each step was. `Valid` says that the
 * log is a run of the machine and that the run ends in the actual state, so every theorem
 * about runs is a theorem about this code.
 */
module TelegramNotifier {
  import opened Wrappers
  import opened Utf16
  import opened DeliveryRows
  import opened TelegramTransport
  import opened DeliveryMachine
  import opened DeliverySafety
  import opened DeliveryStore
  import opened TelegramSplitter

  datatype Reason =
    | CouldNotPrepare
    | ChunkUncertain
    | OwnedElsewhere
    | OwnershipLost
    | ChunkFailed(index: nat, uncertain: bool)

  datatype NotifyResult =
    | Delivered
    | NotDelivered(reason: Reason)
    | Rejected              // the store threw
    | Died                  // the process was killed

  /** `after` continues `before` by events other than manual reconciliation. */
  ghost predicate Grew(before: seq<Event>, after: seq<Event>) {
    before <= after && forall j :: |before| <= j < |after| ==> !after[j].Reconcile?
  }

  /** Some chunk is sending or uncertain. */
  ghost predicate InDoubt(rows: seq<Chunk>) {
    exists i :: 0 <= i < |rows| && (rows[i].state == Sending || rows[i].state == Uncertain)
  }

  /** Some chunk is still to be confirmed, its row stored or not. */
  ghost predicate Unfinished(rows: seq<Chunk>, bodies: seq<Text>) {
    |rows| < |bodies| || exists i :: 0 <= i < |rows| && rows[i].state != Confirmed
  }

  lemma PreparingDecidesNothing(rows: seq<Chunk>, bodies: seq<Text>)
    ensures InDoubt(InsertMissing(rows, bodies)) <==> InDoubt(rows)
    ensures Unfinished(InsertMissing(rows, bodies), bodies) <==> Unfinished(rows, bodies)
  {
    var r := InsertMissing(rows, bodies);
    if InDoubt(rows) {
      var i :| 0 <= i < |rows| && (rows[i].state == Sending || rows[i].state == Uncertain);
      assert r[i] == rows[i];
    }
    if |rows| < |bodies| {
      assert r[|rows|].state == Pending;
    }
  }

  /** How many requests went out. */
  ghost function Fetches(log: seq<Event>): nat {
    if log == [] then 0 else Fetches(log[..|log| - 1]) + if log[|log| - 1].Fetch? then 1 else 0
  }

  lemma FetchesMore(log: seq<Event>, e: Event)
    ensures Fetches(log + [e]) == Fetches(log) + if e.Fetch? then 1 else 0
  {
    assert (log + [e])[..|log|] == log;
  }

  lemma {:induction false} FetchesGrow(log: seq<Event>, longer: seq<Event>)
    requires log <= longer
    ensures Fetches(log) <= Fetches(longer)
    decreases |longer|
  {
    if |log| == |longer| {
      assert log == longer;
    } else {
      FetchesGrow(log, longer[..|longer| - 1]);
    }
  }

  /** The delivery of one rendered digest, over all attempts at it. */
  class Delivery {
    const repo: DeliveryOperationsRepository
    const id: OperationId
    const bodies: seq<Text>
    const maxRetries: nat
    const leaseMs: nat

    var chat: seq<Text>
    var wire: Option<nat>
    ghost var worker: Worker
    ghost var log: seq<Event>

    ghost function Task(): Job {
      Job(bodies, maxRetries)
    }

    ghost function State(): Sys
      reads this, repo
    {
      Sys(repo.Rows(id), if id in repo.operations then Some(repo.operations[id]) else None, chat, wire, worker)
    }

    ghost predicate Valid()
      reads this, repo
    {
      && (id in repo.operations <==> id in repo.chunks)
      && Feasible(Task(), Initial(), log)
      && After(Task(), Initial(), log) == State()
    }

    constructor (repo: DeliveryOperationsRepository, channelKey: string, text: Text, maxRetries: nat, leaseMs: nat)
      requires OperationId(channelKey, text) !in repo.operations && OperationId(channelKey, text) !in repo.chunks
      ensures Valid() && this.repo == repo && id == OperationId(channelKey, text)
      ensures bodies == Messages(text, TELEGRAM_MESSAGE_LIMIT)
      ensures forall i :: 0 <= i < |bodies| ==> 0 < |bodies[i]| <= 4096
      ensures worker.Idle? && log == [] && chat == []
    {
      var split := SplitForTelegram(text, TELEGRAM_MESSAGE_LIMIT);
      MessagesFit(text, TELEGRAM_MESSAGE_LIMIT);
      this.repo := repo;
      this.id := OperationId(channelKey, text);
      this.bodies := split.value;
      this.maxRetries := maxRetries;
      this.leaseMs := leaseMs;
      chat, wire, worker, log := [], None, Idle, [];
    }

    /** The network: a request still under way may arrive, get lost, or stay under way. */
    method Network()
      requires Valid()
      modifies this`chat, this`wire, this`log
      ensures Valid() && Grew(old(log), log) && Fetches(log) == Fetches(old(log))
    {
      hide Feasible, After, Fetches;
      FetchesMore(log, Event.Deliver);
      FetchesMore(log, Event.Drop);
      var arrives: bool, lost: bool := *, *;
      if wire.Some? && wire.value < |bodies| && arrives {
        Extend(Task(), Initial(), log, Event.Deliver);
        chat := chat + [bodies[wire.value]];
        wire, log := None, log + [Event.Deliver];
      } else if wire.Some? && lost {
        Extend(Task(), Initial(), log, Event.Drop);
        wire, log := None, log + [Event.Drop];
      }
    }

    method Clock() returns (now: int) {
      now := *;
    }

    /** The operation is under `owner`'s lease and still open. */
    ghost predicate Held(owner: Owner)
      reads repo
    {
      && id in repo.operations
      && repo.operations[id].claimedBy == Some(owner)
      && repo.operations[id].status != OperationStatus.Complete
    }

    /** The operation carries `owner`'s lease, expired or not. */
    ghost predicate LeasedTo(owner: Owner)
      reads repo
    {
      id in repo.operations && repo.operations[id].claimedBy == Some(owner)
    }

    /** Whatever the time, nobody's lease stands in the way of `owner`. */
    ghost predicate Claimable(owner: Owner)
      reads repo
    {
      id in repo.operations ==>
        && repo.operations[id].status != OperationStatus.Complete
        && (repo.operations[id].claimedBy == None || repo.operations[id].claimedBy == Some(owner))
    }

    // ----- one store statement or network action each

    method PrepareRows() returns (r: Result<seq<Chunk>>)
      requires Valid() && worker.Idle?
      modifies this`worker, this`log, repo
      ensures Valid() && Grew(old(log), log)
      ensures r.Ok? && ContentMatches(r.value, bodies) && repo.Rows(id) == r.value
      ensures worker == Prepared(States(r.value)) && id in repo.operations
      ensures InDoubt(r.value) <==> InDoubt(old(repo.Rows(id)))
      ensures Unfinished(r.value, bodies) <==> Unfinished(old(repo.Rows(id)), bodies)
      ensures forall owner :: Claimable(owner) <==> old(Claimable(owner))
      ensures forall owner :: LeasedTo(owner) <==> old(LeasedTo(owner))
      ensures Fetches(log) == Fetches(old(log))
    {
      hide Feasible, After, States, InsertMissing, ContentMatches, InDoubt, Unfinished, Fetches;
      var now := Clock();
      PreparingDecidesNothing(repo.Rows(id), bodies);
      FetchesMore(log, Event.Prepare(now));
      ghost var e := Event.Prepare(now);
      PrepareAlwaysMatches(Task(), log, now);
      Extend(Task(), Initial(), log, e);
      r := repo.Prepare(id, bodies, now);
      log := log + [e];
      worker := Prepared(States(r.value));
    }

    method CloseConfirmed()
      requires Valid() && worker.Prepared? && AllStatesConfirmed(worker.snap) && id in repo.operations
      modifies this`worker, this`log, repo
      ensures Valid() && worker.Idle? && Grew(old(log), log)
      ensures id in repo.operations && repo.operations[id].status == OperationStatus.Complete
      ensures AllConfirmed(repo.Rows(id)) && (forall owner :: !LeasedTo(owner)) && Fetches(log) == Fetches(old(log))
    {
      hide Feasible, After, Fetches;
      var now := Clock();
      FetchesMore(log, Event.CompleteConfirmed(now));
      ghost var k := ShapedAlways(Task(), log);
      ghost var e := Event.CompleteConfirmed(now);
      Extend(Task(), Initial(), log, e);
      repo.Complete(id, now);
      worker, log := Idle, log + [e];
    }

    ghost method TurnAway()
      requires Valid() && worker.Prepared? && !AllStatesConfirmed(worker.snap) && !Settled(worker.snap)
      modifies this`worker, this`log
      ensures Valid() && worker.Idle? && Grew(old(log), log)
    {
      hide Feasible, After;
      Extend(Task(), Initial(), log, Event.Refuse);
      worker, log := Idle, log + [Event.Refuse];
    }

    method ClaimFirst(owner: Owner) returns (claimed: bool)
      requires Valid() && worker.Prepared? && id in repo.operations
      requires !AllStatesConfirmed(worker.snap) && Settled(worker.snap)
      modifies this`worker, this`log, repo
      ensures Valid() && Grew(old(log), log)
      ensures id in repo.operations
      ensures worker == if claimed then Ready(owner, old(worker).snap, 0) else Idle
      ensures if claimed then Held(owner)
              else exists now :: !CanClaim(repo.operations[id], owner, now) && repo.operations == old(repo.operations)
      ensures old(Claimable(owner)) ==> claimed
    {
      hide Feasible, After;
      var now := Clock();
      ghost var e := Event.Claim(owner, now, leaseMs);
      Extend(Task(), Initial(), log, e);
      claimed := repo.Claim(id, owner, now, leaseMs);
      log := log + [e];
      worker := if claimed then Ready(owner, worker.snap, 0) else Idle;
    }

    method ClaimAgain(owner: Owner) returns (claimed: bool)
      requires Valid() && worker.Ready? && worker.owner == owner && Held(owner)
      requires worker.at < |worker.snap| && worker.snap[worker.at] != Confirmed
      modifies this`worker, this`log, repo
      ensures Valid() && Grew(old(log), log)
      ensures claimed && Held(owner)
      ensures worker == Refreshed(owner, old(worker).snap, old(worker).at)
    {
      hide Feasible, After;
      var now := Clock();
      ghost var e := Event.Refresh(now, leaseMs);
      Extend(Task(), Initial(), log, e);
      claimed := repo.Claim(id, owner, now, leaseMs);
      log := log + [e];
      worker := Refreshed(owner, worker.snap, worker.at);
    }

    method StartChunkRow(at: nat)
      requires Valid() && worker.Refreshed? && worker.at == at
      modifies this`worker, this`log, repo
      ensures Valid() && Grew(old(log), log)
      ensures id in repo.operations
      ensures worker == RowStarted(old(worker).owner, old(worker).snap, at)
      ensures repo.operations == old(repo.operations)
    {
      hide Feasible, After;
      ghost var e := Event.StartRow;
      ghost var k := ShapedAlways(Task(), log);
      Extend(Task(), Initial(), log, e);
      repo.StartChunk(id, at);
      worker, log := RowStarted(worker.owner, worker.snap, at), log + [e];
    }

    method StartChunkOperation()
      requires Valid() && worker.RowStarted? && id in repo.operations
      modifies this`worker, this`log, repo
      ensures Valid() && Grew(old(log), log)
      ensures id in repo.operations
      ensures worker == OnWire(old(worker).owner, old(worker).snap, old(worker).at, 0, None)
      ensures repo.operations[id].claimedBy == old(repo.operations[id]).claimedBy
      ensures repo.operations[id].status == InProgress
    {
      hide Feasible, After;
      var now := Clock();
      ghost var e := Event.StartOperation(now);
      Extend(Task(), Initial(), log, e);
      repo.SetStatus(id, InProgress, now);
      worker, log := OnWire(worker.owner, worker.snap, worker.at, 0, None), log + [e];
    }

    method Issue(at: nat)
      requires Valid() && worker.OnWire? && worker.at == at && worker.asked == None
      modifies this`wire, this`worker, this`log
      ensures Valid() && Grew(old(log), log)
      ensures worker == old(worker).(asked := Some(|chat|)) && Fetches(log) == Fetches(old(log)) + 1
    {
      hide Feasible, After, Fetches;
      FetchesMore(log, Event.Fetch);
      Extend(Task(), Initial(), log, Event.Fetch);
      log := log + [Event.Fetch];
      wire := Some(at);
      worker := worker.(asked := Some(|chat|));
    }

    /** Any answer that is honest about what the chat received. */
    method Await(asked: nat) returns (answer: Fetched)
      ensures Honest(answer, asked, |chat|)
    {
      answer := *;
      if !Honest(answer, asked, |chat|) {
        answer := Responded(500, Unparseable);
      }
    }

    /** Reads one answer; the machine moves on to a retry or to the final result. */
    method Take(answer: Fetched, retriesLeft: bool) returns (reading: Reading)
      requires Valid() && worker.OnWire? && worker.asked.Some?
      requires Honest(answer, worker.asked.value, |chat|)
      requires retriesLeft <==> worker.tries < maxRetries
      modifies this`wire, this`worker, this`log
      ensures Valid() && Grew(old(log), log)
      ensures reading == Read(answer, retriesLeft) && Fetches(log) == Fetches(old(log))
      ensures log == old(log) + [Event.Observe(answer)]
      ensures var w := old(worker);
              worker == match reading
                        case TryAgain => OnWire(w.owner, w.snap, w.at, w.tries + 1, None)
                        case Final(result) => Answered(w.owner, w.snap, w.at, result)
    {
      hide Feasible, After, Fetches;
      hide ProvesUndelivered, ProvesDelivered, Read, Retryable, Honest, InsertMissing, States;
      ghost var e := Event.Observe(answer);
      FetchesMore(log, e);
      Extend(Task(), Initial(), log, e);
      reading := ReadAnswer(answer, retriesLeft);
      log := log + [e];
      if ProvesUndelivered(answer) {
        wire := None;
      }
      worker := match reading
        case TryAgain => OnWire(worker.owner, worker.snap, worker.at, worker.tries + 1, None)
        case Final(result) => Answered(worker.owner, worker.snap, worker.at, result);
    }

    /**
     * The retry loop around one send. It asks at most `maxRetries + 1` times and asks again
     * only after an answer that proves nothing arrived; it gives up on an answer worth
     * another try only when all are used up. None means the process died; otherwise `last`
     * is the answer the result was read from.
     */
    method SendMessageDetailed(at: nat, faulty: bool) returns (result: Option<SendResult>, ghost last: Fetched)
      requires Valid() && worker.OnWire? && worker.at == at && worker.tries == 0 && worker.asked == None
      requires id in repo.operations
      modifies this
      ensures Valid() && Grew(old(log), log)
      ensures result.Some? ==> worker == Answered(old(worker).owner, old(worker).snap, at, result.value)
      ensures result.None? ==> faulty
      ensures Fetches(old(log)) < Fetches(log) <= Fetches(old(log)) + maxRetries + 1
      ensures result.Some? ==> log != [] && log[|log| - 1] == Event.Observe(last)
      ensures result.Some? ==> Read(last, false) == Final(result.value)
      ensures result.Some? && Read(last, true).TryAgain? ==> Fetches(log) == Fetches(old(log)) + maxRetries + 1
    {
      hide Valid, Feasible, After, Enabled, Do, Shaped, Fetches;
      var attempt := 0;
      while true
        invariant Valid() && Grew(old(log), log) && id in repo.operations
        invariant 0 <= attempt <= maxRetries
        invariant worker == OnWire(old(worker).owner, old(worker).snap, at, attempt, None)
        invariant Fetches(log) == Fetches(old(log)) + attempt
        decreases maxRetries - attempt
      {
        var asked := |chat|;
        Issue(at);
        Network();
        if {
          case faulty => return None, FetchThrew(NoCause);
          case true =>
        }
        var answer := Await(asked);
        var reading := Take(answer, attempt < maxRetries);
        match reading {
          case TryAgain => attempt := attempt + 1;
          case Final(outcome) => return Some(outcome), answer;
        }
        Network();
      }
    }

    method ConfirmRow(at: nat, messageId: int)
      requires Valid() && worker.Answered? && worker.at == at && worker.result == Acknowledged(messageId)
      modifies this`worker, this`log, repo
      ensures Valid() && Grew(old(log), log)
      ensures id in repo.operations
      ensures worker == Ready(old(worker).owner, old(worker).snap, at + 1)
      ensures repo.operations == old(repo.operations)
    {
      hide Feasible, After;
      var now := Clock();
      ghost var e := Event.Confirm(now);
      ghost var k := ShapedAlways(Task(), log);
      Extend(Task(), Initial(), log, e);
      repo.ConfirmChunk(id, at, Some(messageId), now);
      worker, log := Ready(worker.owner, worker.snap, at + 1), log + [e];
    }

    method FailChunkRow(at: nat, uncertain: bool, error: string)
      requires Valid() && worker.Answered? && worker.at == at && worker.result == NotSent(uncertain)
      modifies this`worker, this`log, repo
      ensures Valid() && Grew(old(log), log)
      ensures id in repo.operations
      ensures worker == RowFailed(old(worker).owner)
      ensures repo.operations == old(repo.operations)
      ensures at < |repo.Rows(id)| && repo.Rows(id)[at].state == if uncertain then Uncertain else ChunkState.Failed
    {
      hide Feasible, After;
      ghost var e := Event.FailRow(error);
      ghost var k := ShapedAlways(Task(), log);
      Extend(Task(), Initial(), log, e);
      if uncertain {
        repo.MarkChunkUncertain(id, at, error);
      } else {
        repo.FailChunk(id, at, error);
      }
      worker, log := RowFailed(worker.owner), log + [e];
    }

    method FailOperation()
      requires Valid() && worker.RowFailed? && id in repo.operations
      modifies this`worker, this`log, repo
      ensures Valid() && Grew(old(log), log)
      ensures id in repo.operations && worker == Closing(old(worker).owner)
      ensures repo.operations[id].status == Broken && repo.chunks == old(repo.chunks)
    {
      hide Feasible, After;
      var now := Clock();
      ghost var e := Event.NoteFailure(now);
      Extend(Task(), Initial(), log, e);
      repo.SetStatus(id, Broken, now);
      worker, log := Closing(worker.owner), log + [e];
    }

    method SkipConfirmed()
      requires Valid() && worker.Ready? && worker.at < |worker.snap| && worker.snap[worker.at] == Confirmed
      modifies this`worker, this`log
      ensures Valid() && Grew(old(log), log)
      ensures worker == Ready(old(worker).owner, old(worker).snap, old(worker).at + 1)
    {
      hide Feasible, After;
      Extend(Task(), Initial(), log, Event.Skip);
      worker, log := Ready(worker.owner, worker.snap, worker.at + 1), log + [Event.Skip];
    }

    method CompleteOperation()
      requires Valid() && worker.Ready? && worker.at == |worker.snap| && id in repo.operations
      modifies this`worker, this`log, repo
      ensures Valid() && Grew(old(log), log)
      ensures id in repo.operations && repo.operations[id].status == OperationStatus.Complete
      ensures AllConfirmed(repo.Rows(id)) && worker == Closing(old(worker).owner)
    {
      hide Feasible, After;
      var now := Clock();
      ghost var e := Event.Finish(now);
      ghost var k := ShapedAlways(Task(), log);
      Extend(Task(), Initial(), log, e);
      repo.Complete(id, now);
      worker, log := Closing(worker.owner), log + [e];
    }

    method ReleaseLease(owner: Owner)
      requires Valid() && worker == Closing(owner) && id in repo.operations
      modifies this`worker, this`log, repo
      ensures Valid() && Grew(old(log), log)
      ensures worker.Idle? && repo.chunks == old(repo.chunks) && id in repo.operations
      ensures repo.operations[id].status == old(repo.operations[id].status) && !LeasedTo(owner)
    {
      hide Feasible, After;
      var now := Clock();
      ghost var e := Event.Release(now);
      Extend(Task(), Initial(), log, e);
      repo.Release(id, owner, now);
      worker, log := Idle, log + [e];
    }

    /** The process is gone; rows, chat and any request under way stay as they are. */
    ghost method Die()
      requires Valid()
      modifies this`worker, this`log
      ensures Valid() && worker.Idle? && Grew(old(log), log)
    {
      hide Feasible, After;
      Extend(Task(), Initial(), log, Event.Crash);
      worker, log := Idle, log + [Event.Crash];
    }

    /** A store statement threw before changing anything; `finally` is next. */
    ghost method StoreThrows()
      requires Valid() && Leased(worker)
      modifies this`worker, this`log
      ensures Valid() && Grew(old(log), log) && worker == Closing(old(worker).owner)
    {
      hide Feasible, After;
      Extend(Task(), Initial(), log, Event.Throw);
      worker, log := Closing(worker.owner), log + [Event.Throw];
    }

    // ----- notify

    /** Why an attempt ended, in terms of what it left in the store. */
    ghost predicate Justified(r: NotifyResult)
      reads this, repo
    {
      && (r.Delivered? ==>
            id in repo.operations && AllConfirmed(repo.Rows(id))
            && repo.operations[id].status == OperationStatus.Complete)
      && (r.NotDelivered? && r.reason.ChunkFailed? ==>
            && id in repo.operations && repo.operations[id].status == Broken
            && r.reason.index < |repo.Rows(id)|
            && repo.Rows(id)[r.reason.index].state == if r.reason.uncertain then Uncertain else ChunkState.Failed)
    }

    ghost predicate EndsEarly(r: NotifyResult, owner: Owner, faulty: bool)
      reads this, repo
    {
      && !r.Delivered? && Justified(r)
      && (r.NotDelivered? ==> r.reason.ChunkFailed?)
      && (!faulty ==> r.NotDelivered?)
      && (r.Died? || worker == Closing(owner))
    }

    method RecordOutcome(owner: Owner, ghost snap: seq<ChunkState>, at: nat, result: SendResult, faulty: bool)
      returns (r: Option<NotifyResult>)
      requires Valid() && Held(owner) && worker == Answered(owner, snap, at, result)
      modifies this, repo
      ensures Valid() && Grew(old(log), log) && id in repo.operations
      ensures r.None? ==> worker == Ready(owner, snap, at + 1) && Held(owner)
      ensures r.Some? ==> EndsEarly(r.value, owner, faulty)
    {
      hide Valid, Feasible, After, Enabled, Do, Shaped;
      Network();
      if {
        case faulty => return Some(Died);
        case faulty => StoreThrows(); return Some(Rejected);
        case true =>
      }
      match result {
        case NotSent(uncertain) =>
          FailChunkRow(at, uncertain, "chunk failed");
          Network();
          if {
            case faulty => return Some(Died);
            case faulty => StoreThrows(); return Some(Rejected);
            case true =>
          }
          FailOperation();
          return Some(NotDelivered(ChunkFailed(at, uncertain)));
        case Acknowledged(messageId) =>
          ConfirmRow(at, messageId);
          return None;
      }
    }

    /** The loop body for a chunk that is not confirmed yet. None: the loop goes on. */
    method SendChunk(owner: Owner, ghost snap: seq<ChunkState>, at: nat, faulty: bool)
      returns (r: Option<NotifyResult>)
      requires Valid() && Held(owner)
      requires worker == Ready(owner, snap, at) && at < |snap| && snap[at] != Confirmed
      modifies this, repo
      ensures Valid() && Grew(old(log), log) && id in repo.operations
      ensures r.None? ==> worker == Ready(owner, snap, at + 1) && Held(owner)
      ensures r.Some? ==> EndsEarly(r.value, owner, faulty)
      ensures !faulty || r.None? ==> Fetches(old(log)) < Fetches(log)
    {
      hide Valid, Feasible, After, Enabled, Do, Shaped, Fetches;
      if {
        case faulty => return Some(Died);
        case faulty => StoreThrows(); return Some(Rejected);
        case true =>
      }
      var owned := ClaimAgain(owner);
      if !owned {
        return Some(NotDelivered(OwnershipLost));
      }
      if {
        case faulty => return Some(Died);
        case faulty => StoreThrows(); return Some(Rejected);
        case true =>
      }
      StartChunkRow(at);
      if {
        case faulty => return Some(Died);
        case faulty => StoreThrows(); return Some(Rejected);
        case true =>
      }
      StartChunkOperation();
      if {
        case faulty => return Some(Died);
        case true =>
      }
      FetchesGrow(old(log), log);
      var result;
      ghost var last;
      result, last := SendMessageDetailed(at, faulty);
      ghost var sent := log;
      if result.None? {
        return Some(Died);
      }
      r := RecordOutcome(owner, snap, at, result.value, faulty);
      FetchesGrow(sent, log);
    }

    /** One delivery attempt under its lease, from the first chunk to the last. */
    method SendAll(owner: Owner, prepared: seq<Chunk>, faulty: bool) returns (r: NotifyResult)
      requires Valid() && Held(owner) && worker == Ready(owner, States(prepared), 0)
      modifies this, repo
      ensures Valid() && Grew(old(log), log) && id in repo.operations && Justified(r)
      ensures r.Died? || worker == Closing(owner)
      ensures r.NotDelivered? ==> r.reason.ChunkFailed?
      ensures !faulty ==> r.Delivered? || r.NotDelivered?
      ensures r.Delivered? || !faulty ==> AllStatesConfirmed(States(prepared)) || Fetches(old(log)) < Fetches(log)
    {
      hide Valid, Feasible, After, Enabled, Do, Shaped, Fetches;
      var at := 0;
      var sentThisAttempt := 0;
      while at < |prepared|
        invariant 0 <= at <= |prepared|
        invariant Valid() && Grew(old(log), log) && Held(owner)
        invariant worker == Ready(owner, States(prepared), at)
        invariant (forall j :: 0 <= j < at ==> prepared[j].state == Confirmed) || Fetches(old(log)) < Fetches(log)
      {
        ghost var here := log;
        FetchesGrow(old(log), log);
        if prepared[at].state == Confirmed {
          SkipConfirmed();
          FetchesGrow(here, log);
        } else {
          if sentThisAttempt > 0 {
            Network();
          }
          var end := SendChunk(owner, States(prepared), at, faulty);
          if end.Some? {
            return end.value;
          }
          sentThisAttempt := sentThisAttempt + 1;
        }
        at := at + 1;
      }
      if {
        case faulty => return Died;
        case faulty => StoreThrows(); return Rejected;
        case true =>
      }
      ghost var sent := log;
      CompleteOperation();
      FetchesGrow(sent, log);
      return Delivered;
    }

    /** The part of `notify` that runs under the lease, `finally` included. */
    method Attempt(owner: Owner, prepared: seq<Chunk>, faulty: bool) returns (r: NotifyResult)
      requires Valid() && id in repo.operations && worker == Prepared(States(prepared))
      requires !AllStatesConfirmed(States(prepared)) && Settled(States(prepared))
      modifies this, repo
      ensures Valid() && worker.Idle? && Grew(old(log), log) && Justified(r)
      ensures r.NotDelivered? ==> r.reason.ChunkFailed? || r.reason.OwnedElsewhere?
      ensures r.NotDelivered? && r.reason.OwnedElsewhere? ==>
                id in repo.operations && exists now :: !CanClaim(repo.operations[id], owner, now)
      ensures !faulty ==> r.Delivered? || r.NotDelivered?
      ensures r.Died? || !LeasedTo(owner) || old(LeasedTo(owner))
      ensures r.Delivered? ==> Fetches(old(log)) < Fetches(log) && !LeasedTo(owner)
      ensures !faulty && old(Claimable(owner)) ==>
                Fetches(old(log)) < Fetches(log) && (r.NotDelivered? ==> r.reason.ChunkFailed?) && !LeasedTo(owner)
    {
      hide Valid, Feasible, After, Enabled, Do, Shaped, Fetches;
      var claimed := ClaimFirst(owner);
      if !claimed {
        return NotDelivered(OwnedElsewhere);
      }
      FetchesGrow(old(log), log);
      if {
        case faulty => Die(); return Died;
        case true =>
      }
      r := SendAll(owner, prepared, faulty);
      ghost var sent := log;
      if r.Died? {
        Die();
        return;
      }
      Network();
      if {
        case faulty => Die(); return Died;
        case true =>
      }
      ReleaseLease(owner);
      FetchesGrow(sent, log);
    }

    /**
     * One attempt at the whole digest. Attempts do not overlap: the previous one has ended,
     * by returning, throwing or dying. With `faulty`, the process may die and the store may
     * throw at any step. However the attempt ends, what happened is a run of the delivery
     * machine, the reported reason is visible in the store, and unless the process died its
     * lease is gone. Without faults, a chunk in doubt is exactly what turns an attempt away;
     * a finished digest is reported as delivered with nothing sent; and any other is sent on,
     * from the chunk that failed or was never sent, as soon as nobody else holds the lease.
     */
    method Notify(owner: Owner, faulty: bool) returns (r: NotifyResult)
      requires Valid() && worker.Idle?
      modifies this, repo
      ensures Valid() && worker.Idle? && Grew(old(log), log) && Justified(r)
      ensures r.NotDelivered? && r.reason.ChunkUncertain? ==> InDoubt(old(repo.Rows(id)))
      ensures r.NotDelivered? && r.reason.OwnedElsewhere? ==>
                id in repo.operations && exists now :: !CanClaim(repo.operations[id], owner, now)
      ensures !r.NotDelivered? || !r.reason.OwnershipLost?
      ensures !faulty ==> r.Delivered? || (r.NotDelivered? && !r.reason.CouldNotPrepare?)
      ensures !faulty ==> (r == NotDelivered(ChunkUncertain) <==> InDoubt(old(repo.Rows(id))))
      ensures !faulty && !Unfinished(old(repo.Rows(id)), bodies) ==> r.Delivered? && Fetches(log) == Fetches(old(log))
      ensures !faulty && Unfinished(old(repo.Rows(id)), bodies) && !InDoubt(old(repo.Rows(id)))
              && old(Claimable(owner)) ==>
                Fetches(old(log)) < Fetches(log) && (r.Delivered? || r.reason.ChunkFailed?)
      ensures r.Died? || !LeasedTo(owner) || old(LeasedTo(owner))
      ensures r.Delivered? ==> !LeasedTo(owner)
    {
      hide Valid, Feasible, After, Enabled, Do, Shaped, Fetches;
      Network();
      if {
        case faulty => return NotDelivered(CouldNotPrepare);
        case true =>
      }
      var prepared := PrepareRows();
      var rows := prepared.value;
      if {
        case faulty => Die(); return Died;
        case true =>
      }

      if forall i :: 0 <= i < |rows| ==> rows[i].state == Confirmed {
        if {
          case faulty => Die(); return Rejected;
          case true =>
        }
        CloseConfirmed();
        return Delivered;
      }
      if exists i :: 0 <= i < |rows| && InFlight(rows[i].state) {
        TurnAway();
        return NotDelivered(ChunkUncertain);
      }
      if {
        case faulty => Die(); return Rejected;
        case true =>
      }
      r := Attempt(owner, rows, faulty);
    }

    /** `reconcileUncertainChunk`, called while no attempt is under way. */
    method ReconcileByHand(index: nat, how: Resolution, messageId: Option<int>, now: int) returns (r: Result<()>)
      requires Valid() && worker.Idle?
      modifies this`log, repo
      ensures Valid() && worker.Idle?
      ensures r.Ok? <==> id in old(repo.chunks) && CanReconcile(old(repo.Rows(id)), index)
      ensures r.Ok? ==>
                && repo.Rows(id) == old(repo.Rows(id))[index :=
                                        ReconciledChunk(old(repo.Rows(id))[index], how, messageId, now)]
                && log == old(log) + [Event.Reconcile(index, how, messageId, now)]
      ensures r.Thrown? ==> repo.Rows(id) == old(repo.Rows(id)) && log == old(log)
      ensures forall i: nat :: i < |old(repo.Rows(id))| && old(repo.Rows(id)[i]).state == Confirmed ==>
                            i < |repo.Rows(id)| && repo.Rows(id)[i] == old(repo.Rows(id)[i])
    {
      hide Feasible, After, ReconciledChunk, ReconciledOperation;
      ghost var e := Event.Reconcile(index, how, messageId, now);
      if id in repo.chunks && CanReconcile(repo.chunks[id], index) {
        Extend(Task(), Initial(), log, e);
      }
      r := repo.ReconcileUncertainChunk(id, index, how, messageId, now);
      if r.Ok? {
        log := log + [e];
      }
    }

    /**
     * Any number of attempts, each ending however it ends: the chat never shows anything but
     * the first chunks in order, and shows all of them once an attempt has reported success.
     */
    method KeepTrying(attempts: nat) returns (delivered: bool)
      requires Valid() && worker.Idle? && NoReconcile(log)
      modifies this, repo
      ensures Valid() && worker.Idle? && Grew(old(log), log)
      ensures chat <= bodies
      ensures delivered ==> chat == bodies
    {
      delivered := false;
      var i := 0;
      while i < attempts && !delivered
        invariant Valid() && worker.Idle? && Grew(old(log), log)
        invariant delivered ==> id in repo.operations && AllConfirmed(repo.Rows(id))
      {
        hide Valid, Feasible, After, Enabled, Do, Shaped;
        var owner: Owner, faulty: bool := *, *;
        var r := Notify(owner, faulty);
        delivered := r.Delivered?;
        i := i + 1;
      }
      assert NoReconcile(log);
      NothingSentTwice(Task(), log);
      if delivered {
        AllConfirmedMeansDelivered(Task(), log);
      }
    }
  }
}
