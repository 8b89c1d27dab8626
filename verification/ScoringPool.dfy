/**
 * The postings table as one delivery run sees it: its own transactions, with any number of
 * other runs, collections and manual edits before each. The log of all of them is always a
 * run of the admission protocol that ends in the actual table.
 */
module ScoringPool {
  import opened Wrappers
  import opened PostingRows
  import opened PostingsStore
  import opened ScoringClaims
  import Budget = ScoreBudget

  /** What a run knows about one of its candidates. */
  datatype Mark = Mark(notified: bool, failures: nat)

  /** A run's claim: where it stands in the log, what it took, and the failure counters then. */
  datatype Hold = Hold(at: nat, c: set<Fingerprint>, before: map<Fingerprint, nat>)

  ghost function MarksIn(table: Table, c: set<Fingerprint>): map<Fingerprint, Mark>
    requires c <= table.Keys
  {
    map fp | fp in c :: Mark(table[fp].notifiedAt.Some?, table[fp].scoreFailureCount)
  }

  /** The scorer calls and outcome writes of one run for one posting. */
  function TurnOf(es: seq<Event>, run: RunId, fp: Fingerprint): seq<Budget.Event> {
    if es == [] then []
    else
      var before := TurnOf(es[..|es| - 1], run, fp);
      match es[|es| - 1]
      case Call(r, p, ok) => if r == run && p == fp then before + [Budget.Call(ok)] else before
      case RecordFailure(r, p, _) => if r == run && p == fp then before + [Budget.Write] else before
      case ClearFailures(r, p) => if r == run && p == fp then before + [Budget.Write] else before
      case _ => before
  }

  ghost function TurnsIn(es: seq<Event>, run: RunId, c: set<Fingerprint>): map<Fingerprint, seq<Budget.Event>> {
    map fp | fp in c :: TurnOf(es, run, fp)
  }

  predicate NoneOf(es: seq<Event>, from: nat, run: RunId) {
    forall k :: from <= k < |es| ==> !Of(es[k], run)
  }

  lemma {:induction false} TurnsOfOthers(es: seq<Event>, longer: seq<Event>, run: RunId, fp: Fingerprint)
    requires es <= longer && NoneOf(longer, |es|, run)
    ensures TurnOf(longer, run, fp) == TurnOf(es, run, fp)
    decreases |longer|
  {
    if |longer| == |es| {
      assert longer == es;
    } else {
      TurnsOfOthers(es, longer[..|longer| - 1], run, fp);
    }
  }

  lemma TurnsKept(es: seq<Event>, longer: seq<Event>, run: RunId, c: set<Fingerprint>)
    requires es <= longer && NoneOf(longer, |es|, run)
    ensures TurnsIn(longer, run, c) == TurnsIn(es, run, c)
  {
    forall fp | fp in c
      ensures TurnOf(longer, run, fp) == TurnOf(es, run, fp)
    {
      TurnsOfOthers(es, longer, run, fp);
    }
  }

  /** A run whose id has never been used has no events. */
  lemma {:induction false} UnusedHasNone(rules: Rules, clock: int, es: seq<Event>, run: RunId)
    requires 0 <= rules.staleMs && Feasible(rules, Initial(clock), es)
    requires run !in After(rules, Initial(clock), es).used
    ensures NoneOf(es, 0, run)
  {
    if es != [] {
      var before := es[..|es| - 1];
      InvAlways(rules, clock, before);
      UnusedHasNone(rules, clock, before, run);
    }
  }

  /** The log up to `hold.at` is the run's claim, with these candidates and counters. */
  ghost predicate ClaimedAt(rules: Rules, clock: int, log: seq<Event>, run: RunId, hold: Hold) {
    && hold.at < |log| && log[hold.at] == Event.Claim(run)
    && Feasible(rules, Initial(clock), log[..hold.at + 1])
    && var s := After(rules, Initial(clock), log[..hold.at + 1]);
       && run in s.live && s.live[run].candidates == hold.c && hold.c <= s.table.Keys
       && hold.before == map fp | fp in hold.c :: s.table[fp].scoreFailureCount
  }

  /** The run's release at `at` of the log, and the candidates' marks just before it. */
  ghost predicate ReleasedAt(rules: Rules, clock: int, log: seq<Event>, run: RunId, c: set<Fingerprint>,
                             at: nat, marks: map<Fingerprint, Mark>)
  {
    && at < |log| && log[at] == Event.Release(run)
    && Feasible(rules, Initial(clock), log[..at])
    && var s := After(rules, Initial(clock), log[..at]);
       && run in s.live && s.live[run].candidates == c && c <= s.table.Keys
       && marks == MarksIn(s.table, c)
  }

  lemma StillClaimed(rules: Rules, clock: int, log: seq<Event>, longer: seq<Event>, run: RunId, hold: Hold)
    requires ClaimedAt(rules, clock, log, run, hold) && log <= longer
    ensures ClaimedAt(rules, clock, longer, run, hold)
  {
    assert longer[..hold.at + 1] == log[..hold.at + 1];
  }

  lemma StillReleased(rules: Rules, clock: int, log: seq<Event>, longer: seq<Event>, run: RunId,
                      c: set<Fingerprint>, at: nat, marks: map<Fingerprint, Mark>)
    requires ReleasedAt(rules, clock, log, run, c, at, marks) && log <= longer
    ensures ReleasedAt(rules, clock, longer, run, c, at, marks)
  {
    assert longer[..at] == log[..at];
  }

  function Settled(marks: map<Fingerprint, Mark>, fp: Fingerprint, ok: bool): map<Fingerprint, Mark>
    requires fp in marks
  {
    marks[fp := marks[fp].(failures := if ok then 0 else marks[fp].failures + 1)]
  }

  class Pool {
    const repo: PostingsRepository
    const rules: Rules
    const started: int
    var clock: int
    /** The other processes: who is between its claim and its release, and who has been. */
    var live: map<RunId, Live>
    var used: set<RunId>
    ghost var log: seq<Event>

    function State(): Sys
      reads this, repo
    {
      Sys(repo.table, live, used, clock)
    }

    ghost predicate Valid()
      reads this, repo
    {
      && 0 <= rules.staleMs
      && Feasible(rules, Initial(started), log) && After(rules, Initial(started), log) == State()
    }

    constructor (rules: Rules, started: int)
      requires 0 <= rules.staleMs
      ensures Valid() && fresh(repo) && used == {} && this.rules == rules
    {
      repo := new PostingsRepository();
      this.rules, this.started := rules, started;
      clock, live, used, log := started, map[], {}, [];
    }

    /** The run is under way with this claim. */
    ghost predicate Holding(run: RunId, hold: Hold)
      reads this, repo
    {
      && Valid() && run in live && live[run].candidates == hold.c && hold.c <= repo.table.Keys
      && ClaimedAt(rules, started, log, run, hold)
    }

    ghost predicate Asking(run: RunId, asked: Option<Asked>)
      reads this
    {
      run in live && live[run].asked == asked
    }

    ghost function Marks(c: set<Fingerprint>): map<Fingerprint, Mark>
      requires c <= repo.table.Keys
      reads this, repo
    {
      MarksIn(repo.table, c)
    }

    ghost function Turns(run: RunId, c: set<Fingerprint>): map<Fingerprint, seq<Budget.Event>>
      reads this
    {
      TurnsIn(log, run, c)
    }

    lemma KeptBySelf(run: RunId)
      requires Valid()
      ensures Kept(State(), State(), run)
    {
      InvAlways(rules, started, log);
      if run in live {
        assert Carried(rules, State(), run);
      }
    }

    method OtherEvent(e: Event, run: RunId)
      requires Valid() && Enabled(rules, State(), e) && !Of(e, run)
      modifies this, repo
      ensures Valid() && Kept(old(State()), State(), run) && log == old(log) + [e]
    {
      hide Feasible, After, Kept, Enabled, Do;
      InvAlways(rules, started, log);
      KeptByOthers(rules, State(), e, run);
      Extend(rules, Initial(started), log, e);
      var t := Do(rules, State(), e);
      repo.table, live, used, clock := t.table, t.live, t.used, t.clock;
      log := log + [e];
    }

    /** Any number of events of other runs, collections, manual edits and clock ticks. */
    method Others(run: RunId)
      requires Valid()
      modifies this, repo
      ensures Valid() && Kept(old(State()), State(), run)
      ensures old(log) <= log && NoneOf(log, |old(log)|, run)
    {
      hide Feasible, After, Kept;
      KeptBySelf(run);
      var n: nat := *;
      while n > 0
        invariant Valid() && Kept(old(State()), State(), run)
        invariant old(log) <= log && NoneOf(log, |old(log)|, run)
      {
        ghost var mid := State();
        var e: Event := *;
        if Enabled(rules, State(), e) && !Of(e, run) {
          OtherEvent(e, run);
          KeptTwice(old(State()), mid, State(), run);
        }
        n := n - 1;
      }
    }

    /** The same, while holding candidates: their marks and turns stand. */
    method OthersWhileHolding(run: RunId, ghost hold: Hold)
      requires Holding(run, hold)
      modifies this, repo
      ensures Holding(run, hold) && Marks(hold.c) == old(Marks(hold.c))
      ensures live[run] == old(live)[run] && Turns(run, hold.c) == old(Turns(run, hold.c))
      ensures old(log) <= log
    {
      hide Feasible, After, ClaimedAt, TurnsIn;
      Others(run);
      TurnsKept(old(log), log, run, hold.c);
      StillClaimed(rules, started, old(log), log, run, hold);
    }

    // ----- the run's own transactions

    method TakeAll(run: RunId) returns (claimed: seq<Fingerprint>, ghost hold: Hold)
      requires Valid() && run !in used
      modifies this, repo
      ensures Holding(run, hold) && Asking(run, None) && hold.c == set fp | fp in claimed
      ensures log == old(log) + [Event.Claim(run)] && hold.at == |old(log)| && clock == old(clock)
      ensures hold.c == ClaimedBy(old(repo.table), clock, rules.staleMs)
      ensures forall fp :: fp in hold.c ==> Marks(hold.c)[fp] == Mark(false, hold.before[fp])
      ensures forall i, j :: 0 <= i < j < |claimed| ==> claimed[i] != claimed[j]
    {
      hide Feasible, After, TurnOf;
      Extend(rules, Initial(started), log, Event.Claim(run));
      ghost var c := ClaimedBy(repo.table, clock, rules.staleMs);
      assert forall fp :: fp in c ==> Active(repo.table[fp]);
      claimed := repo.ClaimForScoring(run, clock, rules.staleMs);
      assert c == set fp | fp in claimed;
      live := live[run := Live(clock, (set fp | fp in claimed), None)];
      used := used + {run};
      log := log + [Event.Claim(run)];
      hold := Hold(|log| - 1, c, map fp | fp in c :: repo.table[fp].scoreFailureCount);
      assert log[..|log|] == log;
    }

    lemma ClaimTurns(log0: seq<Event>, run: RunId, c: set<Fingerprint>)
      requires NoneOf(log0, 0, run)
      ensures forall fp :: fp in c ==> TurnsIn(log0 + [Event.Claim(run)], run, c)[fp] == []
    {
      forall fp | fp in c
        ensures TurnOf(log0 + [Event.Claim(run)], run, fp) == []
      {
        assert (log0 + [Event.Claim(run)])[..|log0|] == log0;
        TurnsOfOthers([], log0, run, fp);
      }
    }

    /**
     * claimForScoring: takes exactly the postings that are claimable at that moment, nobody
     * having been notified of them, and holds them.
     */
    method Claim(run: RunId) returns (claimed: seq<Fingerprint>, ghost hold: Hold)
      requires Valid() && run !in used
      modifies this, repo
      ensures Holding(run, hold) && Asking(run, None) && hold.c == set fp | fp in claimed
      ensures forall fp :: fp in hold.c ==> Marks(hold.c)[fp] == Mark(false, hold.before[fp])
      ensures forall fp :: fp in hold.c ==> Turns(run, hold.c)[fp] == []
      ensures forall i, j :: 0 <= i < j < |claimed| ==> claimed[i] != claimed[j]
      ensures old(log) <= log && |old(log)| <= hold.at == |log| - 1
      ensures Feasible(rules, Initial(started), log[..hold.at])
      ensures hold.c == ClaimedBy(After(rules, Initial(started), log[..hold.at]).table, clock, rules.staleMs)
    {
      hide Feasible, After, TurnOf, ClaimedAt, NoneOf, Holding, WithClaims;
      Others(run);
      UnusedHasNone(rules, started, log, run);
      ghost var log0 := log;
      claimed, hold := TakeAll(run);
      ClaimTurns(log0, run, hold.c);
      assert log[..hold.at] == log0;
    }

    lemma NoTurn(es: seq<Event>, e: Event, run: RunId, c: set<Fingerprint>)
      requires e.MarkNotified? || e.Release?
      ensures TurnsIn(es + [e], run, c) == TurnsIn(es, run, c)
    {
      assert (es + [e])[..|es|] == es;
    }

    method MarkNotified(run: RunId, ghost hold: Hold, fps: seq<Fingerprint>, at: int)
      requires Holding(run, hold) && forall fp :: fp in fps ==> fp in hold.c
      modifies this, repo
      ensures Holding(run, hold) && Turns(run, hold.c) == old(Turns(run, hold.c)) && old(log) <= log
      ensures forall fp :: fp in hold.c ==>
                Marks(hold.c)[fp] == if fp in fps then old(Marks(hold.c))[fp].(notified := true)
                                     else old(Marks(hold.c))[fp]
    {
      hide Feasible, After, ClaimedAt, TurnsIn;
      OthersWhileHolding(run, hold);
      ghost var e := Event.MarkNotified(run, (set fp | fp in fps), at);
      Extend(rules, Initial(started), log, e);
      StillClaimed(rules, started, log, log + [e], run, hold);
      NoTurn(log, e, run, hold.c);
      repo.MarkNotifiedMany(fps, at);
      log := log + [e];
    }

    lemma OwnTurn(es: seq<Event>, e: Event, run: RunId, c: set<Fingerprint>, fp: Fingerprint, x: Budget.Event)
      requires fp in c
      requires match e
               case Call(r, p, ok) => r == run && p == fp && x == Budget.Call(ok)
               case RecordFailure(r, p, _) => r == run && p == fp && x == Budget.Write
               case ClearFailures(r, p) => r == run && p == fp && x == Budget.Write
               case _ => false
      ensures TurnsIn(es + [e], run, c) == TurnsIn(es, run, c)[fp := TurnsIn(es, run, c)[fp] + [x]]
    {
      assert (es + [e])[..|es|] == es;
    }

    method FailureCount(run: RunId, ghost hold: Hold, fp: Fingerprint) returns (count: nat)
      requires Holding(run, hold) && fp in hold.c
      modifies this, repo
      ensures Holding(run, hold) && Marks(hold.c) == old(Marks(hold.c)) && count == Marks(hold.c)[fp].failures
      ensures live[run] == old(live)[run] && Turns(run, hold.c) == old(Turns(run, hold.c)) && old(log) <= log
    {
      hide Feasible, After, ClaimedAt, TurnsIn;
      OthersWhileHolding(run, hold);
      count := repo.GetScoreFailureCount(fp);
    }

    /** The scorer is called for a candidate below the ceiling, and has an answer coming. */
    method Ask(run: RunId, ghost hold: Hold, fp: Fingerprint, ok: bool)
      requires Holding(run, hold) && fp in hold.c && Asking(run, None)
      requires Marks(hold.c)[fp].failures < rules.maxFailures
      modifies this, repo
      ensures Holding(run, hold) && Asking(run, Some(Asked(fp, ok))) && Marks(hold.c) == old(Marks(hold.c))
      ensures Turns(run, hold.c)
           == old(Turns(run, hold.c))[fp := old(Turns(run, hold.c))[fp] + [Budget.Call(ok)]]
      ensures old(log) <= log
    {
      hide Feasible, After, ClaimedAt, TurnsIn;
      OthersWhileHolding(run, hold);
      ghost var e := Event.Call(run, fp, ok);
      Extend(rules, Initial(started), log, e);
      StillClaimed(rules, started, log, log + [e], run, hold);
      OwnTurn(log, e, run, hold.c, fp, Budget.Call(ok));
      live := live[run := live[run].(asked := Some(Asked(fp, ok)))];
      log := log + [e];
    }

    /** The write after a model call: one statement or the other. */
    method Settle(run: RunId, ghost hold: Hold, fp: Fingerprint, ok: bool, at: int)
      requires Holding(run, hold) && fp in hold.c && Asking(run, Some(Asked(fp, ok)))
      modifies this, repo
      ensures Holding(run, hold) && Asking(run, None) && Marks(hold.c) == Settled(old(Marks(hold.c)), fp, ok)
      ensures Turns(run, hold.c)
           == old(Turns(run, hold.c))[fp := old(Turns(run, hold.c))[fp] + [Budget.Write]]
      ensures old(log) <= log
    {
      if ok {
        ClearFailures(run, hold, fp);
      } else {
        RecordFailure(run, hold, fp, at);
      }
    }

    method ClearFailures(run: RunId, ghost hold: Hold, fp: Fingerprint)
      requires Holding(run, hold) && fp in hold.c && Asking(run, Some(Asked(fp, true)))
      modifies this, repo
      ensures Holding(run, hold) && Asking(run, None) && Marks(hold.c) == Settled(old(Marks(hold.c)), fp, true)
      ensures Turns(run, hold.c)
           == old(Turns(run, hold.c))[fp := old(Turns(run, hold.c))[fp] + [Budget.Write]]
      ensures old(log) <= log
    {
      hide Feasible, After, ClaimedAt, TurnsIn;
      OthersWhileHolding(run, hold);
      ghost var e := Event.ClearFailures(run, fp);
      Extend(rules, Initial(started), log, e);
      StillClaimed(rules, started, log, log + [e], run, hold);
      OwnTurn(log, e, run, hold.c, fp, Budget.Write);
      repo.ClearScoreFailures(fp);
      live := live[run := live[run].(asked := None)];
      log := log + [e];
    }

    method RecordFailure(run: RunId, ghost hold: Hold, fp: Fingerprint, at: int)
      requires Holding(run, hold) && fp in hold.c && Asking(run, Some(Asked(fp, false)))
      modifies this, repo
      ensures Holding(run, hold) && Asking(run, None) && Marks(hold.c) == Settled(old(Marks(hold.c)), fp, false)
      ensures Turns(run, hold.c)
           == old(Turns(run, hold.c))[fp := old(Turns(run, hold.c))[fp] + [Budget.Write]]
      ensures old(log) <= log
    {
      hide Feasible, After, ClaimedAt, TurnsIn;
      OthersWhileHolding(run, hold);
      ghost var e := Event.RecordFailure(run, fp, at);
      Extend(rules, Initial(started), log, e);
      StillClaimed(rules, started, log, log + [e], run, hold);
      OwnTurn(log, e, run, hold.c, fp, Budget.Write);
      repo.RecordScoreFailure(fp, at);
      live := live[run := live[run].(asked := None)];
      log := log + [e];
    }

    /** The release in the catch block when the run had released already, or never claimed. */
    method ReleaseAgain(run: RunId)
      requires Valid()
      modifies this, repo
      ensures Valid() && LeftNothing(State(), run) && run !in live
      ensures old(log) <= log && forall k :: |old(log)| <= k < |log| ==> log[k] != Event.Claim(run)
    {
      hide Feasible, After;
      Others(run);
      Extend(rules, Initial(started), log, Event.Release(run));
      repo.ReleaseUnresolvedClaims(run);
      live, used := live - {run}, used + {run};
      log := log + [Event.Release(run)];
    }

    lemma ClaimBefore(hold: Hold, run: RunId)
      requires ClaimedAt(rules, started, log, run, hold)
      ensures hold.at < |log|
    {
    }

    /** After it no un-notified posting carries the run's id. */
    method Release(run: RunId, ghost hold: Hold) returns (ghost at: nat, ghost marks: map<Fingerprint, Mark>)
      requires Holding(run, hold)
      modifies this, repo
      ensures Valid() && LeftNothing(State(), run) && run !in live
      ensures ClaimedAt(rules, started, log, run, hold) && hold.at < at
      ensures ReleasedAt(rules, started, log, run, hold.c, at, marks)
      ensures marks == old(Marks(hold.c)) && TurnsIn(log[..at], run, hold.c) == old(Turns(run, hold.c))
      ensures old(log) <= log
    {
      hide Feasible, After, ClaimedAt, TurnsIn;
      OthersWhileHolding(run, hold);
      marks := Marks(hold.c);
      at := |log|;
      ghost var log0 := log;
      Extend(rules, Initial(started), log, Event.Release(run));
      StillClaimed(rules, started, log, log + [Event.Release(run)], run, hold);
      ClaimBefore(hold, run);
      repo.ReleaseUnresolvedClaims(run);
      live, used := live - {run}, used + {run};
      log := log + [Event.Release(run)];
      assert log[..at] == log0;
    }
  }
}
