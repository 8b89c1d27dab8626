/**
 * executeDeliver from its claim to its last release, on every exit: sent, notification
 * failed, cancelled, stopped by a permanent provider failure, or an exception at any point.
 */
module DeliverRun {
  import opened Wrappers
  import opened PostingRows
  import opened PostingsStore
  import Claims = ScoringClaims
  import opened ScoringPool
  import opened RunAccounting
  import opened Digests
  import opened RunFates
  import Budget = ScoreBudget

  datatype Step = Next | Stop | Threw

  datatype LoopEnd = AllReached | CancelSeen | BatchFatal | LoopThrew

  datatype RunOutcome = Success | Cancelled | RunFailed

  /** The row `runsRepo.finish` writes. */
  datatype RunRow = RunRow(outcome: RunOutcome, filtered: nat, scored: nat, delivered: nat, failures: map<Key, nat>)

  /** How a run ends; an unclaimed one failed before it held anything. */
  datatype Exit = Sent | NotifyFailed | Raised | Unclaimed

  /** The channel, with the digests it reported as delivered. */
  class Notifier {
    ghost var accepted: seq<Digest>

    constructor ()
      ensures accepted == []
    {
      accepted := [];
    }

    method Notify(digest: Digest) returns (ok: bool)
      modifies this
      ensures accepted == if ok then old(accepted) + [digest] else old(accepted)
    {
      ok := *;
      if ok {
        accepted := accepted + [digest];
      }
    }
  }

  /** The model behind the scorer, with what it has answered. */
  class Scorer {
    ghost var answers: map<Fingerprint, ScoreResult>

    constructor ()
      ensures answers == map[]
    {
      answers := map[];
    }

    method Score(fp: Fingerprint) returns (result: ScoreResult)
      modifies this
      ensures answers == old(answers)[fp := result]
    {
      result := *;
      answers := answers[fp := result];
    }
  }

  ghost predicate AcceptedMore(before: seq<Digest>, after: seq<Digest>, digest: Option<Digest>) {
    after == before + if digest.Some? then [digest.value] else []
  }

  /** What the run is told to look for. */
  datatype Criteria = Criteria(passes: Fingerprint -> bool, national: Fingerprint -> bool, budget: Option<nat>)

  // ----- who is scored in this run

  lemma {:induction false} PartsAddUp(postings: seq<Fingerprint>, national: Fingerprint -> bool)
    ensures multiset(Only(postings, national) + Only(postings, Abroad(national))) == multiset(postings)
  {
    if postings != [] {
      PartsAddUp(postings[..|postings| - 1], national);
      assert postings == postings[..|postings| - 1] + [postings[|postings| - 1]];
    }
  }

  /** National postings first and uncapped, international ones after, order kept in both. */
  method PartitionByOrigin(postings: seq<Fingerprint>, national: Fingerprint -> bool)
    returns (home: seq<Fingerprint>, abroad: seq<Fingerprint>)
    ensures home == Only(postings, national) && abroad == Only(postings, Abroad(national))
    ensures multiset(home + abroad) == multiset(postings)
  {
    home, abroad := [], [];
    var i := 0;
    while i < |postings|
      invariant 0 <= i <= |postings|
      invariant home == Only(postings[..i], national) && abroad == Only(postings[..i], Abroad(national))
    {
      assert postings[..i + 1] == postings[..i] + [postings[i]];
      OnlyNext(postings[..i], postings[i], national);
      OnlyNext(postings[..i], postings[i], Abroad(national));
      if national(postings[i]) {
        home := home + [postings[i]];
      } else {
        abroad := abroad + [postings[i]];
      }
      i := i + 1;
    }
    assert postings[..i] == postings;
    PartsAddUp(postings, national);
  }

  /** rankForScoring: some order of the same postings. */
  method RankForScoring(filtered: seq<Fingerprint>) returns (ranked: seq<Fingerprint>)
    ensures multiset(ranked) == multiset(filtered)
  {
    ranked := *;
    if multiset(ranked) != multiset(filtered) {
      ranked := filtered;
    }
  }

  lemma Origins(s: seq<Fingerprint>, national: Fingerprint -> bool)
    ensures forall fp :: fp in Only(s, national) ==> national(fp)
    ensures forall fp :: fp in Only(s, Abroad(national)) ==> !national(fp)
  {
    forall fp
      ensures fp in Only(s, national) ==> national(fp)
      ensures fp in Only(s, Abroad(national)) ==> !national(fp)
    {
      InOnly(s, national, fp);
      InOnly(s, Abroad(national), fp);
    }
  }

  lemma SameMembers(s: seq<Fingerprint>, t: seq<Fingerprint>)
    requires multiset(s) == multiset(t)
    ensures forall fp :: fp in s <==> fp in t
  {
    assert forall fp :: (fp in s <==> fp in multiset(s)) && (fp in t <==> fp in multiset(t));
  }

  /**
   * Ranking, the split by origin, and the budget on the international part: the best ranked
   * international postings are taken, the rest deferred.
   */
  method Divide(filtered: seq<Fingerprint>, national: Fingerprint -> bool, budget: Option<nat>)
    returns (admitted: seq<Fingerprint>, deferred: seq<Fingerprint>, ghost ranked: seq<Fingerprint>)
    requires Distinct(filtered)
    ensures multiset(ranked) == multiset(filtered)
    ensures admitted == Admitted(ranked, national, budget) && deferred == Postponed(ranked, national, budget)
    ensures Distinct(admitted + deferred)
    ensures forall fp :: fp in admitted + deferred <==> fp in filtered
    ensures Scheduled(ranked, FirstFate(admitted, deferred), national, budget)
    ensures WithinBudget(FirstFate(admitted, deferred), national, budget)
  {
    hide WithinBudget, Distinct, Scheduled;
    var order := RankForScoring(filtered);
    var home, abroad := PartitionByOrigin(order, national);
    var cut := Cut(budget, |abroad|);
    admitted, deferred, ranked := home + abroad[..cut], abroad[cut..], order;
    assert home + abroad == admitted + deferred;
    SameElements(filtered, home + abroad);
    Origins(order, national);
    FirstFateWithinBudget(home, abroad[..cut], deferred, national, budget);
    SameMembers(ranked, filtered);
    FirstFateScheduled(ranked, national, budget);
  }

  function Passing(passes: Fingerprint -> bool, c: set<Fingerprint>): set<Fingerprint> {
    set fp | fp in c && passes(fp)
  }

  class Delivery {
    const pool: Pool
    const run: RunId

    var filteredCount: nat
    var scoredCount: nat
    var deferredCount: nat
    var scoreFailureCounts: map<Key, nat>
    var cancelRequested: bool

    /** What became of each posting that passed the pre-filter, once they are counted. */
    ghost var fate: map<Fingerprint, Fate>
    /** What the scorer answered to this run, and what it had answered before. */
    ghost var heard: map<Fingerprint, ScoreResult>
    ghost var known: map<Fingerprint, ScoreResult>
    /** What this run did to each candidate with the scorer. */
    ghost var turns: map<Fingerprint, seq<Budget.Event>>
    /** The survivors of the pre-filter by rank, once they are counted. */
    ghost var ranked: seq<Fingerprint>
    /** What had happened to the table before the run. */
    ghost var begun: seq<Claims.Event>

    /** No survivor of the pre-filter has been counted yet. */
    ghost predicate NothingCounted()
      reads this`filteredCount, this`scoredCount, this`scoreFailureCounts, this`fate, this`heard
    {
      filteredCount == 0 && scoredCount == 0 && scoreFailureCounts == map[] && fate == map[] && heard == map[]
    }

    /** What the scorer has answered is what it had before the run, and what this run heard. */
    ghost predicate Listens(scorer: Scorer)
      reads this`heard, this`known, scorer
    {
      scorer.answers == known + heard
    }

    /** The provider said that it would fail every posting. */
    ghost predicate SomePermanent()
      reads this`heard
    {
      exists fp :: fp in heard && Permanent(heard[fp])
    }

    /** How a run is recorded whose digest was sent. */
    ghost function Ending(): RunOutcome
      reads this`heard, this`cancelRequested
    {
      if cancelRequested then Cancelled else if SomePermanent() then RunFailed else Success
    }

    constructor (pool: Pool, run: RunId)
      ensures this.pool == pool && this.run == run
      ensures NothingCounted() && deferredCount == 0 && !cancelRequested
    {
      this.pool, this.run := pool, run;
      filteredCount, scoredCount, deferredCount, scoreFailureCounts, cancelRequested := 0, 0, 0, map[], false;
      fate, heard, known, turns, ranked, begun := map[], map[], map[], map[], [], [];
    }

    ghost predicate Counted()
      reads this`fate, this`filteredCount, this`scoredCount, this`deferredCount, this`scoreFailureCounts
    {
      Accounted(fate, filteredCount, scoredCount, deferredCount, scoreFailureCounts)
    }

    /** The run has its claim since it began, and each candidate's counter is where its turn left it. */
    ghost predicate Tracks(hold: Hold)
      reads this`turns, this`begun, pool, pool.repo
    {
      && pool.Holding(run, hold) && begun <= pool.log && |begun| <= hold.at
      && turns == pool.Turns(run, hold.c)
      && InTurn(pool.rules.maxFailures, hold.before, turns, pool.Marks(hold.c))
    }

    /** The same, and nobody has been notified of any of them yet. */
    ghost predicate Working(hold: Hold)
      reads this`turns, this`begun, pool, pool.repo
    {
      Tracks(hold) && NoneMarked(pool.Marks(hold.c))
    }

    /** No answer of the scorer is waiting to be written. */
    ghost predicate Idle()
      reads pool
    {
      pool.Asking(run, None)
    }

    ghost predicate Fits(hold: Hold)
      reads this`fate, this`turns, this`heard
    {
      AllFit(pool.rules.maxFailures, hold.before, fate, turns, heard)
    }

    // ----- one posting

    method CountFailure(fp: Fingerprint, reason: Reason)
      requires Counted() && fp in fate && fate[fp] == NotAttempted
      modifies this`scoreFailureCounts, this`fate
      ensures Counted() && fate == old(fate)[fp := Failed(reason)]
    {
      forall f
        ensures Tally(fate[fp := Failed(reason)], f)
             == Tally(fate, f) + if f == Failed(reason) then 1 else if f == NotAttempted then -1 else 0
      {
        TallyMoves(fate, fp, Failed(reason), f);
      }
      var k := Named(reason);
      scoreFailureCounts := scoreFailureCounts[k := (if k in scoreFailureCounts then scoreFailureCounts[k] else 0) + 1];
      fate := fate[fp := Failed(reason)];
    }

    method CountScored(fp: Fingerprint)
      requires Counted() && fp in fate && fate[fp] == NotAttempted
      modifies this`scoredCount, this`fate
      ensures Counted() && fate == old(fate)[fp := Scored]
    {
      forall f
        ensures Tally(fate[fp := Scored], f)
             == Tally(fate, f) + if f == Scored then 1 else if f == NotAttempted then -1 else 0
      {
        TallyMoves(fate, fp, Scored, f);
      }
      scoredCount := scoredCount + 1;
      fate := fate[fp := Scored];
    }

    // ----- one posting: its failure counter

    method BeginCall(ghost hold: Hold, fp: Fingerprint, ok: bool)
      requires Working(hold) && Idle() && fp in turns && turns[fp] == []
      requires fp in hold.before && hold.before[fp] < pool.rules.maxFailures
      modifies this`turns, pool, pool.repo
      ensures Working(hold) && pool.Asking(run, Some(Claims.Asked(fp, ok)))
      ensures turns == old(turns)[fp := [Budget.Call(ok)]]
    {
      TurnBegun(pool.rules.maxFailures, hold.before, turns, pool.Marks(hold.c), fp, ok);
      hide InTurn, NoneMarked;
      pool.Ask(run, hold, fp, ok);
      turns := turns[fp := turns[fp] + [Budget.Call(ok)]];
    }

    method WriteOutcome(ghost hold: Hold, fp: Fingerprint, ok: bool)
      requires Working(hold) && pool.Asking(run, Some(Claims.Asked(fp, ok)))
      requires fp in turns && turns[fp] == [Budget.Call(ok)]
      modifies this`turns, pool, pool.repo
      ensures Working(hold) && Idle() && turns == old(turns)[fp := [Budget.Call(ok), Budget.Write]]
    {
      assert fp in pool.Marks(hold.c);
      TurnWritten(pool.rules.maxFailures, hold.before, turns, pool.Marks(hold.c), fp, ok);
      assert NoneMarked(Settled(pool.Marks(hold.c), fp, ok));
      hide InTurn, Settled, NoneMarked;
      pool.Settle(run, hold, fp, ok, pool.clock);
      turns := turns[fp := turns[fp] + [Budget.Write]];
    }

    /** Nothing but `fp` has moved on, and that to no deferral. */
    twostate predicate OnlyAbout(fp: Fingerprint)
      reads this
    {
      && unchanged(this`filteredCount) && unchanged(this`deferredCount) && unchanged(this`cancelRequested)
      && fate.Keys == old(fate).Keys && turns.Keys == old(turns).Keys
      && (fp in fate ==> fate[fp] != Deferred)
      && (forall q :: q in fate && q != fp ==> fate[q] == old(fate)[q])
      && (forall q :: q in turns && q != fp ==> turns[q] == old(turns)[q])
      && (forall q :: q != fp ==> (q in heard <==> q in old(heard)))
      && (forall q :: q != fp && q in heard ==> heard[q] == old(heard)[q])
    }

    /** A posting that has failed too often gets no further model call. */
    method GiveUp(ghost hold: Hold, ghost entries: seq<Entry>, fp: Fingerprint, faulty: bool)
      returns (step: Step, told: seq<Entry>)
      requires Counted() && Told(fate, heard, entries) && Fits(hold)
      requires fp in fate && fate[fp] == NotAttempted && fp !in heard
      requires fp in turns && turns[fp] == [] && fp in hold.before && hold.before[fp] >= pool.rules.maxFailures
      modifies this`scoreFailureCounts, this`fate
      ensures Counted() && OnlyAbout(fp) && Fits(hold)
      ensures step == Threw ==> faulty
      ensures step != Threw ==> step == Next && fate[fp] != NotAttempted && Told(fate, heard, entries + told)
    {
      hide Counted, Told, AllFit;
      var reachable: bool := *;
      var score: int := *;
      told := [Entry(fp, Review, score, reachable, Some(MaxRetriesExceeded))];
      FitNext(pool.rules.maxFailures, hold.before, fate, turns, heard, fp, Failed(MaxRetriesExceeded), []);
      assert turns[fp := []] == turns;
      ToldNext(fate, heard, entries, fp, Failed(MaxRetriesExceeded), told);
      CountFailure(fp, MaxRetriesExceeded);
      if {
        case faulty => return Threw, [];
        case true =>
      }
      step := Next;
    }

    /** The model gave a verdict: the counter is cleared and the posting counted as scored. */
    method KeepVerdict(ghost hold: Hold, ghost entries: seq<Entry>, fp: Fingerprint, verdict: Verdict, score: int,
                       gated: bool)
      returns (told: seq<Entry>)
      requires Working(hold) && Counted() && Told(fate, heard, entries) && Fits(hold)
      requires fp in fate && fate[fp] == NotAttempted && fp in heard && heard[fp] == Verdicted(verdict, score, gated)
      requires fp in turns && turns[fp] == [Budget.Call(true)] && pool.Asking(run, Some(Claims.Asked(fp, true)))
      requires fp in hold.before && hold.before[fp] < pool.rules.maxFailures
      modifies this`scoredCount, this`fate, this`turns, pool, pool.repo
      ensures Working(hold) && Idle() && Counted() && OnlyAbout(fp) && Fits(hold)
      ensures fate[fp] != NotAttempted && Told(fate, heard, entries + told)
    {
      hide Counted, Told, Working, InTurn, AllFit, Idle;
      var reachable: bool := *;
      FitNext(pool.rules.maxFailures, hold.before, fate, turns, heard, fp, Scored, [Budget.Call(true), Budget.Write]);
      WriteOutcome(hold, fp, true);
      told := if gated then [] else [Entry(fp, verdict, score, reachable, None)];
      ToldNext(fate, heard, entries, fp, Scored, told);
      CountScored(fp);
    }

    /** The model failed: counted first, then written down; an exception may fall between. */
    method KeepFailure(ghost hold: Hold, ghost entries: seq<Entry>, fp: Fingerprint, reason: Reason, faulty: bool)
      returns (threw: bool, told: seq<Entry>)
      requires Working(hold) && Counted() && Told(fate, heard, entries) && Fits(hold)
      requires fp in fate && fate[fp] == NotAttempted
      requires fp in heard && heard[fp].Unscored? && heard[fp].reason == reason
      requires fp in turns && turns[fp] == [Budget.Call(false)] && pool.Asking(run, Some(Claims.Asked(fp, false)))
      requires fp in hold.before && hold.before[fp] < pool.rules.maxFailures
      modifies this`scoreFailureCounts, this`fate, this`turns, pool, pool.repo
      ensures Working(hold) && Counted() && OnlyAbout(fp) && Fits(hold)
      ensures threw ==> faulty
      ensures fate[fp] == Failed(reason)
      ensures !threw ==> Idle() && Told(fate, heard, entries + told)
    {
      hide Counted, Told, Working, InTurn, AllFit, Idle;
      var reachable: bool := *;
      var score: int := *;
      told := [Entry(fp, Review, score, reachable, Some(reason))];
      ToldNext(fate, heard, entries, fp, Failed(reason), told);
      FitNext(pool.rules.maxFailures, hold.before, fate, turns, heard, fp, Failed(reason), turns[fp]);
      assert turns[fp := turns[fp]] == turns;
      FitNext(pool.rules.maxFailures, hold.before, fate[fp := Failed(reason)], turns, heard, fp, Failed(reason),
              [Budget.Call(false), Budget.Write]);
      assert fate[fp := Failed(reason)][fp := Failed(reason)] == fate[fp := Failed(reason)];
      CountFailure(fp, reason);
      if {
        case faulty => return true, [];
        case true =>
      }
      WriteOutcome(hold, fp, false);
      threw := false;
    }

    /** The scorer is called and has answered; nothing else has happened. */
    method Hear(ghost hold: Hold, ghost entries: seq<Entry>, fp: Fingerprint, scorer: Scorer)
      returns (result: ScoreResult)
      requires Working(hold) && Idle() && Told(fate, heard, entries) && Fits(hold) && Listens(scorer)
      requires fp in fate && fate[fp] == NotAttempted
      requires fp in turns && turns[fp] == [] && fp in hold.before && hold.before[fp] < pool.rules.maxFailures
      modifies this`heard, this`turns, pool, pool.repo, scorer
      ensures Working(hold) && pool.Asking(run, Some(Claims.Asked(fp, result.Verdicted?)))
      ensures Told(fate, heard, entries) && Fits(hold) && Listens(scorer)
      ensures heard == old(heard)[fp := result]
      ensures turns == old(turns)[fp := [Budget.Call(result.Verdicted?)]]
    {
      hide Told, Working, InTurn, AllFit, Idle;
      result := scorer.Score(fp);
      ToldWhenHeard(fate, heard, entries, fp, result);
      FitWhenHeard(pool.rules.maxFailures, hold.before, fate, turns, heard, fp, result);
      heard := heard[fp := result];
      assert scorer.answers == known + heard;
      BeginCall(hold, fp, result.Verdicted?);
    }

    /** What follows an answer, once its event is recorded. */
    method Act(ghost hold: Hold, ghost entries: seq<Entry>, fp: Fingerprint, result: ScoreResult, faulty: bool)
      returns (step: Step, told: seq<Entry>)
      requires Working(hold) && Counted() && Told(fate, heard, entries) && Fits(hold)
      requires fp in fate && fate[fp] == NotAttempted && fp in heard && heard[fp] == result
      requires fp in turns && turns[fp] == [Budget.Call(result.Verdicted?)]
      requires pool.Asking(run, Some(Claims.Asked(fp, result.Verdicted?)))
      requires fp in hold.before && hold.before[fp] < pool.rules.maxFailures
      modifies this`scoreFailureCounts, this`scoredCount, this`fate, this`turns, pool, pool.repo
      ensures Working(hold) && Counted() && OnlyAbout(fp) && Fits(hold)
      ensures step == Threw ==> faulty
      ensures step != Threw ==> (step == Stop <==> Permanent(result))
      ensures step != Threw ==> Idle() && fate[fp] != NotAttempted && Told(fate, heard, entries + told)
    {
      hide Counted, Told, Working, InTurn, AllFit, Idle, OnlyAbout;
      match result
      case Verdicted(verdict, score, gated) =>
        step := Next;
        told := KeepVerdict(hold, entries, fp, verdict, score, gated);
      case Unscored(reason, permanent) =>
        var threw: bool;
        threw, told := KeepFailure(hold, entries, fp, reason, faulty);
        step := if threw then Threw else if permanent then Stop else Next;
    }

    /** One model call, its event, and the write of its outcome. */
    method CallScorer(ghost hold: Hold, ghost entries: seq<Entry>, fp: Fingerprint, scorer: Scorer, faulty: bool)
      returns (step: Step, told: seq<Entry>)
      requires Working(hold) && Idle() && Counted() && Told(fate, heard, entries) && Fits(hold) && Listens(scorer)
      requires fp in fate && fate[fp] == NotAttempted && fp !in heard
      requires fp in turns && turns[fp] == [] && fp in hold.before && hold.before[fp] < pool.rules.maxFailures
      modifies this`scoreFailureCounts, this`scoredCount, this`fate, this`heard, this`turns, pool, pool.repo, scorer
      ensures Working(hold) && Counted() && OnlyAbout(fp) && Fits(hold) && Listens(scorer)
      ensures step == Threw ==> faulty
      ensures step != Threw ==> fp in heard && (step == Stop <==> Permanent(heard[fp]))
      ensures step != Threw ==> Idle() && fate[fp] != NotAttempted && Told(fate, heard, entries + told)
    {
      hide Counted, Told, Working, InTurn, AllFit, Idle, Listens, Permanent;
      var result := Hear(hold, entries, fp, scorer);
      if {
        case faulty => return Threw, [];
        case true =>
      }
      step, told := Act(hold, entries, fp, result, faulty);
    }

    method ReadCount(ghost hold: Hold, fp: Fingerprint) returns (count: nat)
      requires Working(hold) && Idle() && fp in turns && turns[fp] == []
      modifies pool, pool.repo
      ensures Working(hold) && Idle() && fp in hold.before && count == hold.before[fp]
    {
      assert fp in pool.Marks(hold.c);
      assert Turn(pool.rules.maxFailures, hold.before[fp], turns[fp], pool.Marks(hold.c)[fp].failures);
      hide InTurn, NoneMarked;
      count := pool.FailureCount(run, hold, fp);
    }

    /** Waiting for its turn. */
    ghost predicate Pending(fp: Fingerprint)
      reads this`fate, this`heard, this`turns
    {
      fp in fate && fate[fp] == NotAttempted && fp !in heard && fp in turns && turns[fp] == []
    }

    method ScoreOne(ghost hold: Hold, ghost entries: seq<Entry>, fp: Fingerprint, scorer: Scorer, faulty: bool)
      returns (step: Step, told: seq<Entry>)
      requires Working(hold) && Idle() && Counted() && Told(fate, heard, entries) && Fits(hold) && Listens(scorer)
      requires Pending(fp)
      modifies this`scoreFailureCounts, this`scoredCount, this`fate, this`heard, this`turns, pool, pool.repo, scorer
      ensures Working(hold) && Counted() && OnlyAbout(fp) && Fits(hold) && Listens(scorer)
      ensures step == Threw ==> faulty
      ensures step != Threw ==> (step == Stop <==> fp in heard && Permanent(heard[fp]))
      ensures step != Threw ==> Idle() && fate[fp] != NotAttempted && Told(fate, heard, entries + told)
    {
      hide Counted, Told, Working, AllFit, Idle;
      var count := ReadCount(hold, fp);
      if count >= pool.rules.maxFailures {
        step, told := GiveUp(hold, entries, fp, faulty);
      } else {
        step, told := CallScorer(hold, entries, fp, scorer, faulty);
      }
    }

    // ----- the scoring loop

    /** Stops early on a cancel request, a permanent provider failure or an exception. */
    method ScoreAll(ghost hold: Hold, admitted: seq<Fingerprint>, scorer: Scorer, faulty: bool)
      returns (end: LoopEnd, entries: seq<Entry>)
      requires Working(hold) && Idle() && Counted() && Told(fate, heard, []) && Fits(hold) && Listens(scorer)
      requires Distinct(admitted) && (forall fp :: fp in admitted ==> Pending(fp)) && !SomePermanent()
      requires !cancelRequested
      modifies this`scoreFailureCounts, this`scoredCount, this`fate, this`heard, this`turns,
               this`cancelRequested, pool, pool.repo, scorer
      ensures Working(hold) && Counted() && Fits(hold) && Listens(scorer) && SameDeferred(old(fate), fate)
      ensures AttemptedFirst(admitted, fate)
      ensures forall fp :: fp in fate && fp !in admitted ==> fate[fp] == old(fate)[fp]
      ensures end == LoopThrew ==> faulty
      ensures end != LoopThrew ==> Told(fate, heard, entries) && (end == BatchFatal <==> SomePermanent())
      ensures end == AllReached ==> forall fp :: fp in admitted ==> fp in fate && fate[fp] != NotAttempted
      ensures end == CancelSeen <==> cancelRequested
    {
      hide Counted, Told, Working, AllFit, Idle, Listens, AttemptedFirst;
      entries := [];
      var i := 0;
      while i < |admitted|
        invariant 0 <= i <= |admitted|
        invariant Working(hold) && Idle() && Counted() && Told(fate, heard, entries) && Fits(hold) && Listens(scorer)
        invariant SameDeferred(old(fate), fate) && !SomePermanent() && !cancelRequested
        invariant forall fp :: fp in fate && fp !in admitted ==> fate[fp] == old(fate)[fp]
        invariant forall j :: i <= j < |admitted| ==> Pending(admitted[j])
        invariant forall j :: 0 <= j < i ==> admitted[j] in fate && fate[admitted[j]] != NotAttempted
      {
        var requested: bool := *;
        if !cancelRequested && requested {
          cancelRequested := true;
          AttemptedUpTo(admitted, fate, i);
          return CancelSeen, entries;
        }
        assert Pending(admitted[i]);
        var step, told := ScoreOne(hold, entries, admitted[i], scorer, faulty);
        AttemptedUpTo(admitted, fate, i);
        if step == Threw {
          return LoopThrew, entries;
        }
        entries := entries + told;
        if step == Stop {
          return BatchFatal, entries;
        }
        i := i + 1;
      }
      AttemptedUpTo(admitted, fate, i);
      end := AllReached;
    }

    // ----- from the claim to the scoring loop

    /** No candidate has been scored yet. */
    ghost predicate Unused(hold: Hold)
      reads this`turns
    {
      hold.before.Keys == turns.Keys == hold.c && forall fp :: fp in turns ==> turns[fp] == []
    }

    /** The claim, in one transaction with the dedup pass. */
    method TakeClaims() returns (claimed: seq<Fingerprint>, ghost hold: Hold)
      requires pool.Valid() && run !in pool.used
      modifies this`turns, this`begun, pool, pool.repo
      ensures Working(hold) && Idle() && Unused(hold) && begun == old(pool.log)
      ensures Distinct(claimed) && hold.c == set fp | fp in claimed
    {
      begun := pool.log;
      claimed, hold := pool.Claim(run);
      turns := pool.Turns(run, hold.c);
    }

    method PreFilter(claimed: seq<Fingerprint>, passes: Fingerprint -> bool, faulty: bool)
      returns (threw: bool, filtered: seq<Fingerprint>)
      requires Distinct(claimed)
      ensures threw ==> faulty
      ensures Distinct(filtered)
      ensures !threw ==> forall fp :: fp in filtered <==> fp in claimed && passes(fp)
    {
      threw, filtered := false, [];
      var i := 0;
      while i < |claimed|
        invariant 0 <= i <= |claimed|
        invariant Distinct(filtered) && forall fp :: fp in filtered <==> fp in claimed[..i] && passes(fp)
      {
        assert claimed[..i + 1] == claimed[..i] + [claimed[i]];
        if {
          case faulty => return true, filtered;
          case true =>
        }
        if passes(claimed[i]) {
          assert claimed[i] !in claimed[..i];
          filtered := filtered + [claimed[i]];
        }
        i := i + 1;
      }
      assert claimed[..i] == claimed;
    }

    /** The survivors of the pre-filter are counted, each with a fate, the deferred ones within the budget. */
    ghost predicate Surveyed(hold: Hold, criteria: Criteria)
      reads this
    {
      && Counted() && fate.Keys == Passing(criteria.passes, hold.c)
      && WithinBudget(fate, criteria.national, criteria.budget)
      && Scheduled(ranked, fate, criteria.national, criteria.budget)
    }

    method CountSurvivors(ghost hold: Hold, ghost criteria: Criteria, admitted: seq<Fingerprint>,
                          deferred: seq<Fingerprint>, ghost order: seq<Fingerprint>)
      requires NothingCounted() && deferredCount == |deferred| && Unused(hold)
      requires Distinct(admitted + deferred)
      requires forall fp :: fp in admitted + deferred <==> fp in hold.c && criteria.passes(fp)
      requires WithinBudget(FirstFate(admitted, deferred), criteria.national, criteria.budget)
      requires Scheduled(order, FirstFate(admitted, deferred), criteria.national, criteria.budget)
      modifies this`filteredCount, this`fate, this`ranked
      ensures Surveyed(hold, criteria) && Fits(hold) && Told(fate, heard, []) && ranked == order
      ensures Distinct(admitted) && forall fp :: fp in admitted ==> Pending(fp)
      ensures forall fp :: fp in fate && fp !in admitted ==> fate[fp] == Deferred
    {
      hide Accounted, Told, FirstFate, Distinct, AllFit, WithinBudget, Scheduled;
      FirstFateCounted(admitted, deferred);
      FirstFateTells(admitted, deferred);
      FirstFateFits(pool.rules.maxFailures, hold.before, turns, admitted, deferred);
      assert heard == map[];
      filteredCount := |admitted + deferred|;
      fate, ranked := FirstFate(admitted, deferred), order;
      assert fate.Keys == Passing(criteria.passes, hold.c);
    }

    lemma NothingFits(hold: Hold)
      requires Unused(hold) && NothingCounted()
      ensures Fits(hold)
    {
    }

    /**
     * Pre-filter, ranking, the split by origin and the international budget. The deferred
     * ones are counted before, not together with, the postings that passed the pre-filter.
     */
    method Admit(ghost hold: Hold, claimed: seq<Fingerprint>, criteria: Criteria, faulty: bool)
      returns (threw: bool, admitted: seq<Fingerprint>)
      requires NothingCounted() && deferredCount == 0
      requires Distinct(claimed) && hold.c == (set fp | fp in claimed) && Unused(hold)
      modifies this`filteredCount, this`deferredCount, this`fate, this`ranked
      ensures threw ==> faulty && NothingCounted()
      ensures Fits(hold)
      ensures !threw ==> Surveyed(hold, criteria) && Told(fate, heard, [])
      ensures !threw ==> admitted == Admitted(ranked, criteria.national, criteria.budget)
      ensures !threw ==> Distinct(admitted) && forall fp :: fp in admitted ==> Pending(fp)
      ensures !threw ==> forall fp :: fp in fate && fp !in admitted ==> fate[fp] == Deferred
    {
      hide Counted, Told, Distinct, Pending, AllFit, WithinBudget, FirstFate, Scheduled, Admitted, Postponed;
      NothingFits(hold);
      var filtered, deferredInternational: seq<Fingerprint>;
      threw, filtered := PreFilter(claimed, criteria.passes, faulty);
      if threw {
        return true, [];
      }
      ghost var order;
      admitted, deferredInternational, order := Divide(filtered, criteria.national, criteria.budget);
      deferredCount := |deferredInternational|;
      if {
        case faulty => return true, [];
        case true =>
      }
      CountSurvivors(hold, criteria, admitted, deferredInternational, order);
    }

    // ----- the digest and what it settles

    /** The postings this digest settles: everything in it but the recoverable failures. */
    method Settling(sent: seq<Entry>, faulty: bool) returns (threw: bool, fps: seq<Fingerprint>)
      ensures threw ==> faulty
      ensures !threw ==> forall fp :: fp in fps <==> exists e :: e in sent && e.fp == fp && !Recoverable(e)
    {
      threw, fps := false, [];
      var i := 0;
      while i < |sent|
        invariant 0 <= i <= |sent|
        invariant forall fp :: fp in fps <==> exists e :: e in sent[..i] && e.fp == fp && !Recoverable(e)
      {
        assert sent[..i + 1] == sent[..i] + [sent[i]];
        if !Recoverable(sent[i]) {
          fps := fps + [sent[i].fp];
        }
        if {
          case faulty => return true, fps;
          case true =>
        }
        i := i + 1;
      }
      assert sent[..i] == sent;
    }

    ghost predicate EvaluatedAreMarked(hold: Hold)
      reads this, pool, pool.repo
    {
      pool.Holding(run, hold) && ExactlyMarked(fate, heard, pool.Marks(hold.c))
    }

    method MarkSettled(ghost hold: Hold, fps: seq<Fingerprint>)
      requires Working(hold) && fate.Keys <= hold.c
      requires forall fp :: fp in fps <==> Evaluated(fate, heard, fp)
      modifies pool, pool.repo
      ensures Tracks(hold) && EvaluatedAreMarked(hold)
    {
      ghost var marks := pool.Marks(hold.c);
      assert forall fp :: fp in fps ==> fp in fate;
      hide InTurn, Evaluated, NoneMarked, ExactlyMarked;
      pool.MarkNotified(run, hold, fps, pool.clock);
      MarkedExactly(fate, heard, marks, pool.Marks(hold.c), fps);
      InTurnWhenMarked(pool.rules.maxFailures, hold.before, turns, marks, pool.Marks(hold.c));
    }

    /** The digest, if one was accepted, and the postings it tells about. */
    ghost predicate Announced(exit: Exit, digest: Option<Digest>)
      reads this`fate, this`heard
    {
      && (exit == Sent ==> digest.Some?) && (exit == NotifyFailed ==> digest.None?)
      && (digest.Some? ==> Told(fate, heard, Lines(digest.value)))
    }

    lemma EntriesOnce(entries: seq<Entry>)
      requires Told(fate, heard, entries)
      ensures OnceEach(entries)
    {
    }

    /** Compose, notify, and mark what the digest settles. */
    method Announce(ghost hold: Hold, entries: seq<Entry>, notifier: Notifier, faulty: bool)
      returns (exit: Exit, delivered: nat, ghost digest: Option<Digest>)
      requires Working(hold) && Told(fate, heard, entries) && fate.Keys <= hold.c
      modifies pool, pool.repo, notifier
      ensures exit != Unclaimed && (exit == Raised ==> faulty)
      ensures if exit == Sent then Tracks(hold) && EvaluatedAreMarked(hold) else Working(hold)
      ensures Announced(exit, digest) && AcceptedMore(old(notifier.accepted), notifier.accepted, digest)
      ensures exit == Sent ==> delivered == |Lines(digest.value)|
    {
      hide Working, Tracks, EvaluatedAreMarked, Told, Composed;
      digest := None;
      var composed := ComposeDigest(entries);
      if {
        case faulty => return Raised, 0, None;
        case true =>
      }
      EntriesOnce(entries);
      SentTells(fate, heard, entries, Lines(composed));
      var ok := notifier.Notify(composed);
      if !ok {
        return NotifyFailed, 0, None;
      }
      digest := Some(composed);
      var sent := Lines(composed);
      var threw, fps := Settling(sent, faulty);
      if threw {
        return Raised, 0, digest;
      }
      SettlesExactly(fate, heard, entries, sent, fps);
      MarkSettled(hold, fps);
      exit, delivered := Sent, |sent|;
    }

    // ----- the whole run

    /**
     * What the run did to its candidates, from the counters it found to the marks it leaves:
     * each had its turn with the scorer at most once, as its fate says; after a digest was
     * sent exactly the evaluated ones are notified, and the digest has a line for each; without
     * a digest none is; and every survivor of the pre-filter has its counted fate, unless an
     * exception came before any was counted.
     */
    ghost predicate Outcome(hold: Hold, marks: map<Fingerprint, Mark>, criteria: Criteria, exit: Exit,
                            digest: Option<Digest>)
      reads this
    {
      && InTurn(pool.rules.maxFailures, hold.before, turns, marks) && Fits(hold)
      && Announced(exit, digest)
      && (exit == Sent ==> ExactlyMarked(fate, heard, marks))
      && (digest.None? ==> NoneMarked(marks))
      && (ExactlyMarked(fate, heard, marks) || NoneMarked(marks))
      && (Surveyed(hold, criteria) || (exit == Raised && NothingCounted()))
    }

    /** What holds when the run is about to release its claims, by which exit it got there. */
    ghost predicate Ready(hold: Hold, criteria: Criteria, exit: Exit, digest: Option<Digest>)
      reads this, pool, pool.repo
    {
      Tracks(hold) && Outcome(hold, pool.Marks(hold.c), criteria, exit, digest)
    }

    lemma ReadyWhileWorking(hold: Hold, criteria: Criteria, exit: Exit, digest: Option<Digest>)
      requires Working(hold) && Fits(hold) && exit != Sent && Announced(exit, digest)
      requires Surveyed(hold, criteria) || (exit == Raised && NothingCounted())
      ensures Ready(hold, criteria, exit, digest)
    {
    }

    lemma ReadyWhenSent(hold: Hold, criteria: Criteria, digest: Option<Digest>)
      requires Tracks(hold) && Fits(hold) && EvaluatedAreMarked(hold)
      requires Surveyed(hold, criteria) && Announced(Sent, digest)
      ensures Ready(hold, criteria, Sent, digest)
    {
    }

    lemma HeldAreCandidates(hold: Hold, criteria: Criteria)
      requires Surveyed(hold, criteria)
      ensures fate.Keys <= hold.c
    {
    }

    method Conclude(ghost hold: Hold, ghost criteria: Criteria, entries: seq<Entry>, notifier: Notifier,
                    faulty: bool)
      returns (exit: Exit, delivered: nat, ghost digest: Option<Digest>)
      requires Working(hold) && Told(fate, heard, entries) && Fits(hold)
      requires Surveyed(hold, criteria)
      modifies pool, pool.repo, notifier
      ensures exit != Unclaimed && (exit == Raised ==> faulty)
      ensures Ready(hold, criteria, exit, digest) && AcceptedMore(old(notifier.accepted), notifier.accepted, digest)
      ensures exit == Sent ==> digest.Some? && delivered == |Lines(digest.value)|
    {
      hide Working, Tracks, Told, Counted, Ready, EvaluatedAreMarked, AllFit, WithinBudget, Scheduled;
      HeldAreCandidates(hold, criteria);
      exit, delivered, digest := Announce(hold, entries, notifier, faulty);
      if exit == Sent {
        ReadyWhenSent(hold, criteria, digest);
      } else {
        ReadyWhileWorking(hold, criteria, exit, digest);
      }
    }

    /** Ranking, scoring and the digest, for what the run has claimed. */
    method Deliver(ghost hold: Hold, claimed: seq<Fingerprint>, criteria: Criteria, scorer: Scorer,
                   notifier: Notifier, faulty: bool)
      returns (exit: Exit, outcome: RunOutcome, delivered: nat, ghost digest: Option<Digest>)
      requires Working(hold) && Idle() && Unused(hold) && Distinct(claimed) && hold.c == set fp | fp in claimed
      requires NothingCounted() && deferredCount == 0 && !cancelRequested && Listens(scorer)
      modifies this`filteredCount, this`scoredCount, this`deferredCount, this`scoreFailureCounts,
               this`cancelRequested, this`fate, this`heard, this`turns, this`ranked, pool, pool.repo, scorer, notifier
      ensures exit != Unclaimed && (exit == Raised ==> faulty)
      ensures Ready(hold, criteria, exit, digest) && AcceptedMore(old(notifier.accepted), notifier.accepted, digest)
      ensures exit == Sent ==> digest.Some? && delivered == |Lines(digest.value)|
      ensures exit == Sent ==> outcome == Ending()
      ensures exit == Sent && outcome == Success ==>
                forall fp :: fp in fate ==> fate[fp] != NotAttempted
      ensures Listens(scorer)
    {
      hide Working, Tracks, Told, Counted, Ready, EvaluatedAreMarked, Distinct, AllFit, Unused, WithinBudget, Listens,
           Scheduled, AttemptedFirst;
      outcome, delivered, digest := RunFailed, 0, None;
      if {
        case faulty =>
          exit := Raised;
          NothingFits(hold);
          ReadyWhileWorking(hold, criteria, Raised, None);
          return;
        case true =>
      }
      var threw, admitted := Admit(hold, claimed, criteria, faulty);
      if threw {
        exit := Raised;
        ReadyWhileWorking(hold, criteria, Raised, None);
        return;
      }
      label Admitted:
      var end, entries := ScoreAll(hold, admitted, scorer, faulty);
      StillWithinBudget(old@Admitted(fate), fate, criteria.national, criteria.budget);
      StillScheduled(ranked, old@Admitted(fate), fate, criteria.national, criteria.budget);
      if end == LoopThrew {
        exit := Raised;
        ReadyWhileWorking(hold, criteria, Raised, None);
        return;
      }
      exit, delivered, digest := Conclude(hold, criteria, entries, notifier, faulty);
      outcome := if cancelRequested then Cancelled else if end == BatchFatal then RunFailed else Success;
    }

    /**
     * The row tells, for every survivor of the pre-filter, which one fate it met; and its
     * breakdown adds up, unless an exception came after the deferrals were counted and
     * before the survivors were.
     */
    ghost predicate RowCounts(row: RunRow)
      reads this
    {
      && (Sum(row.failures) == row.filtered - row.scored <==> deferredCount <= row.filtered)
      && (Counted() ==>
            && deferredCount <= row.filtered == |fate| && row.scored == Tally(fate, Scored)
            && (forall r :: Get(row.failures, Named(r)) == Tally(fate, Failed(r)))
            && Get(row.failures, DeferredInternationalBudget) == Tally(fate, Deferred)
            && Get(row.failures, NotAttemptedAfterRunFailure) == Tally(fate, NotAttempted))
    }

    /** The row written when the run is over; `failures` must add up to what is missing. */
    method Finish(outcome: RunOutcome, delivered: nat) returns (row: RunRow)
      requires Counted() || NothingCounted()
      ensures row.outcome == outcome && row.delivered == delivered
      ensures row.filtered == filteredCount && row.scored == scoredCount
      ensures RowCounts(row)
      ensures Counted() && (forall fp :: fp in fate ==> fate[fp] != NotAttempted) ==>
                Get(row.failures, NotAttemptedAfterRunFailure) == 0
    {
      assert (forall fp :: fp in fate ==> fate[fp] != NotAttempted) ==> With(fate, NotAttempted) == {};
      var failures := FinalScoreFailureCounts(filteredCount, scoredCount, deferredCount, scoreFailureCounts);
      row := RunRow(outcome, filteredCount, scoredCount, delivered, failures);
      if Counted() {
        AccountedAddsUp(fate, filteredCount, scoredCount, deferredCount, scoreFailureCounts);
      } else {
        assert Sum(scoreFailureCounts) == 0;
      }
    }

    /**
     * Where the run stands in the log of all processes: its claim, then its release, both of
     * this run; what it held, found and left are read off the states there.
     */
    ghost predicate Recorded(hold: Hold, releasedAt: nat, marks: map<Fingerprint, Mark>)
      reads this, pool
    {
      && begun <= pool.log && |begun| <= hold.at < releasedAt
      && ClaimedAt(pool.rules, pool.started, pool.log, run, hold)
      && ReleasedAt(pool.rules, pool.started, pool.log, run, hold.c, releasedAt, marks)
      && turns == TurnsIn(pool.log[..releasedAt], run, hold.c)
    }

    ghost predicate NeverClaimedSince(from: nat)
      reads pool
    {
      forall k :: from <= k < |pool.log| ==> pool.log[k] != Claims.Event.Claim(run)
    }

    /** The claim itself failed: the catch block still releases and writes the row. */
    method FailToClaim() returns (row: RunRow)
      requires pool.Valid() && NothingCounted() && deferredCount == 0
      modifies this`begun, pool, pool.repo
      ensures pool.Valid() && Claims.LeftNothing(pool.State(), run) && run !in pool.live
      ensures begun == old(pool.log) <= pool.log && NeverClaimedSince(|begun|)
      ensures RowCounts(row) && row.outcome == RunFailed && row.filtered == row.scored == row.delivered == 0
      ensures Sum(row.failures) == 0
    {
      assert filteredCount == scoredCount == 0;
      hide NothingCounted, Claims.LeftNothing;
      begun := pool.log;
      pool.ReleaseAgain(run);
      row := Finish(RunFailed, 0);
    }

    lemma OutcomeIfRaised(hold: Hold, marks: map<Fingerprint, Mark>, criteria: Criteria, exit: Exit,
                          digest: Option<Digest>)
      requires Outcome(hold, marks, criteria, exit, digest)
      ensures Outcome(hold, marks, criteria, Raised, digest)
      ensures Counted() || NothingCounted()
      ensures exit == Sent ==> Counted()
    {
    }

    method LetGo(ghost hold: Hold) returns (ghost releasedAt: nat, ghost marks: map<Fingerprint, Mark>)
      requires Tracks(hold)
      modifies pool, pool.repo
      ensures pool.Valid() && Claims.LeftNothing(pool.State(), run) && run !in pool.live
      ensures Recorded(hold, releasedAt, marks) && marks == old(pool.Marks(hold.c)) && begun <= pool.log
    {
      hide InTurn, Claims.LeftNothing, ClaimedAt, TurnsIn;
      releasedAt, marks := pool.Release(run, hold);
    }

    method ReleaseOnceMore(ghost hold: Hold, ghost releasedAt: nat, ghost marks: map<Fingerprint, Mark>)
      requires pool.Valid() && Recorded(hold, releasedAt, marks)
      modifies pool, pool.repo
      ensures pool.Valid() && Claims.LeftNothing(pool.State(), run) && run !in pool.live
      ensures Recorded(hold, releasedAt, marks) && begun <= pool.log
    {
      ghost var log := pool.log;
      assert releasedAt < |log|;
      hide Claims.LeftNothing, ClaimedAt, ReleasedAt, TurnsIn;
      pool.ReleaseAgain(run);
      StillClaimed(pool.rules, pool.started, log, pool.log, run, hold);
      StillReleased(pool.rules, pool.started, log, pool.log, run, hold.c, releasedAt, marks);
      assert pool.log[..releasedAt] == log[..releasedAt];
    }

    lemma RowAddsUp(hold: Hold, marks: map<Fingerprint, Mark>, criteria: Criteria, exit: Exit,
                    digest: Option<Digest>, row: RunRow)
      requires Outcome(hold, marks, criteria, exit, digest) && RowCounts(row)
      requires row.filtered == filteredCount && row.scored == scoredCount
      ensures exit != Raised ==> Sum(row.failures) == row.filtered - row.scored
      ensures !Reported(row.filtered, row.scored, row.failures).Unclassified?
    {
    }

    /** The release and the run row; if writing the row throws, the catch block does both again. */
    method Close(ghost hold: Hold, ghost criteria: Criteria, reached: Exit, ghost digest: Option<Digest>,
                 outcome: RunOutcome, delivered: nat, faulty: bool)
      returns (exit: Exit, row: RunRow, ghost releasedAt: nat, ghost marks: map<Fingerprint, Mark>)
      requires Ready(hold, criteria, reached, digest) && reached != Unclaimed
      modifies pool, pool.repo
      ensures pool.Valid() && Claims.LeftNothing(pool.State(), run) && run !in pool.live
      ensures Recorded(hold, releasedAt, marks) && Outcome(hold, marks, criteria, exit, digest)
      ensures begun <= pool.log
      ensures exit == reached || (exit == Raised && faulty)
      ensures row.outcome == (if exit == Sent then outcome else RunFailed)
      ensures row.delivered == if exit == Sent then delivered else 0
      ensures RowCounts(row) && !Reported(row.filtered, row.scored, row.failures).Unclassified?
      ensures exit != Raised ==> Sum(row.failures) == row.filtered - row.scored
      ensures exit == Sent && (forall fp :: fp in fate ==> fate[fp] != NotAttempted) ==>
                Get(row.failures, NotAttemptedAfterRunFailure) == 0
    {
      hide InTurn, Counted, NothingCounted, ExactlyMarked, NoneMarked, Told, RowCounts, Claims.LeftNothing, Recorded;
      OutcomeIfRaised(hold, pool.Marks(hold.c), criteria, reached, digest);
      releasedAt, marks := LetGo(hold);
      exit := reached;
      if {
        case faulty =>
          ReleaseOnceMore(hold, releasedAt, marks);
          exit := Raised;
        case true =>
      }
      row := Finish(if exit == Sent then outcome else RunFailed, if exit == Sent then delivered else 0);
      RowAddsUp(hold, marks, criteria, exit, digest, row);
    }

    lemma ListensAtFirst(scorer: Scorer)
      requires NothingCounted() && known == scorer.answers
      ensures Listens(scorer)
    {
    }

    /**
     * executeDeliver. However it ends, no un-notified posting carries the run's id. `marks`
     * are the candidates at the moment the claims were released; other runs may act on them
     * from then on. `heard` is what the scorer answered during the run, and the fates and the
     * digest go by it.
     */
    method Execute(criteria: Criteria, scorer: Scorer, notifier: Notifier, faulty: bool)
      returns (exit: Exit, row: RunRow, ghost hold: Hold, ghost releasedAt: nat, ghost marks: map<Fingerprint, Mark>,
               ghost digest: Option<Digest>)
      requires pool.Valid() && run !in pool.used
      requires NothingCounted() && deferredCount == 0 && !cancelRequested
      modifies this, pool, pool.repo, scorer, notifier
      ensures pool.Valid() && Claims.LeftNothing(pool.State(), run) && run !in pool.live
      ensures begun == old(pool.log) <= pool.log && known == old(scorer.answers) && Listens(scorer)
      ensures if exit == Unclaimed
              then faulty && NeverClaimedSince(|begun|) && digest.None? && row.filtered == row.scored == 0
              else Recorded(hold, releasedAt, marks) && Outcome(hold, marks, criteria, exit, digest)
      ensures AcceptedMore(old(notifier.accepted), notifier.accepted, digest)
      ensures row.delivered == if exit == Sent then |Lines(digest.value)| else 0
      ensures RowCounts(row)
      ensures exit == Raised || exit == Unclaimed ==> faulty
      ensures row.outcome == if exit == Sent then Ending() else RunFailed
      ensures exit != Raised ==> Sum(row.failures) == row.filtered - row.scored
      ensures !Reported(row.filtered, row.scored, row.failures).Unclassified?
      ensures row.outcome == Success ==> Get(row.failures, NotAttemptedAfterRunFailure) == 0
    {
      hide Working, Told, Counted, NothingCounted, Outcome, Ready, RowCounts, Recorded, Claims.LeftNothing, Unused,
           Listens;
      digest := None;
      known := scorer.answers;
      ListensAtFirst(scorer);
      if {
        case faulty =>
          hold, releasedAt, marks := Hold(0, {}, map[]), 0, map[];
          row := FailToClaim();
          return Unclaimed, row, hold, releasedAt, marks, None;
        case true =>
      }
      var claimed, outcome: RunOutcome, delivered: nat;
      claimed, hold := TakeClaims();
      exit, outcome, delivered, digest := Deliver(hold, claimed, criteria, scorer, notifier, faulty);
      exit, row, releasedAt, marks := Close(hold, criteria, exit, digest, outcome, delivered, faulty);
    }
  }
}
