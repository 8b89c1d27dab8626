/**
 * The admission protocol between delivery runs of any number of processes: each event is
 * one transaction on the postings table, or the clock, or the death of a run.
 */
module ScoringClaims {
  import opened Wrappers
  import opened PostingRows

  /** The staleness bound of claims and the retry ceiling. */
  datatype Rules = Rules(staleMs: int, maxFailures: nat)

  /** A scorer call whose outcome is not written yet. */
  datatype Asked = Asked(fp: Fingerprint, ok: bool)

  /** A run between its claim and its last release. */
  datatype Live = Live(claimedAt: int, candidates: set<Fingerprint>, asked: Option<Asked>)

  datatype Sys = Sys(table: Table, live: map<RunId, Live>, used: set<RunId>, clock: int)

  datatype Event =
    | Tick(ms: nat)
    | Claim(run: RunId)
    | Call(run: RunId, fp: Fingerprint, ok: bool)
    | MarkNotified(run: RunId, fps: set<Fingerprint>, at: int)
    | Release(run: RunId)
    | Die(run: RunId)
    | Upsert(fp: Fingerprint, posting: Posting)
    | Discard(fp: Fingerprint)
    | MarkDuplicate(fp: Fingerprint, of: Fingerprint)
    | RecordFailure(run: RunId, fp: Fingerprint, at: int)
    | ClearFailures(run: RunId, fp: Fingerprint)
    | Rescore(fp: Fingerprint)

  function Initial(clock: int): Sys {
    Sys(map[], map[], {}, clock)
  }

  predicate Held(s: Sys, fp: Fingerprint) {
    exists r :: r in s.live && fp in s.live[r].candidates
  }

  /**
   * What the protocol takes for granted is in `Tick` (no live run gets older than the
   * staleness bound) and `Rescore` (not of a posting some live run is working on).
   */
  predicate Enabled(rules: Rules, s: Sys, e: Event) {
    match e
    case Tick(ms) => forall r :: r in s.live ==> s.clock + ms - s.live[r].claimedAt <= rules.staleMs
    case Claim(run) => run !in s.used
    case MarkNotified(run, fps, _) => run in s.live && fps <= s.live[run].candidates
    case Release(_) => true
    case Die(run) => run in s.live
    case Upsert(_, _) => true
    case Discard(fp) => fp in s.table
    case MarkDuplicate(fp, _) => fp in s.table
    case Call(run, fp, _) =>
      && run in s.live && fp in s.live[run].candidates && s.live[run].asked.None?
      && fp in s.table && s.table[fp].scoreFailureCount < rules.maxFailures
    case RecordFailure(run, fp, _) => run in s.live && s.live[run].asked == Some(Asked(fp, false)) && fp in s.table
    case ClearFailures(run, fp) => run in s.live && s.live[run].asked == Some(Asked(fp, true)) && fp in s.table
    case Rescore(fp) => fp in s.table && s.table[fp].scoreFailureCount > 0 && !Held(s, fp)
  }

  function Do(rules: Rules, s: Sys, e: Event): Sys
    requires Enabled(rules, s, e)
  {
    match e
    case Tick(ms) => s.(clock := s.clock + ms)
    case Claim(run) =>
      s.(table := WithClaims(s.table, run, s.clock, rules.staleMs),
         live := s.live[run := Live(s.clock, ClaimedBy(s.table, s.clock, rules.staleMs), None)],
         used := s.used + {run})
    case MarkNotified(_, fps, at) => s.(table := WithNotified(s.table, fps, at))
    case Release(run) =>
      s.(table := WithReleases(s.table, run), live := s.live - {run}, used := s.used + {run})
    case Die(run) => s.(live := s.live - {run})
    case Upsert(fp, p) => s.(table := Upserted(s.table, fp, p))
    case Discard(fp) => s.(table := s.table[fp := WithDiscard(s.table[fp], s.clock)])
    case MarkDuplicate(fp, of) => s.(table := s.table[fp := s.table[fp].(duplicateOf := Some(of))])
    case Call(run, fp, ok) => s.(live := s.live[run := s.live[run].(asked := Some(Asked(fp, ok)))])
    case RecordFailure(run, fp, at) =>
      s.(table := s.table[fp := WithFailure(s.table[fp], at)], live := s.live[run := s.live[run].(asked := None)])
    case ClearFailures(run, fp) =>
      s.(table := s.table[fp := WithoutFailures(s.table[fp])], live := s.live[run := s.live[run].(asked := None)])
    case Rescore(fp) => s.(table := s.table[fp := Rescored(s.table[fp])])
  }

  ghost predicate Feasible(rules: Rules, s: Sys, es: seq<Event>)
    decreases |es|, 0
  {
    es == [] ||
    (var before := es[..|es| - 1];
     Feasible(rules, s, before) && Enabled(rules, After(rules, s, before), es[|es| - 1]))
  }

  ghost function After(rules: Rules, s: Sys, es: seq<Event>): Sys
    requires Feasible(rules, s, es)
    decreases |es|, 1
  {
    if es == [] then s
    else Do(rules, After(rules, s, es[..|es| - 1]), es[|es| - 1])
  }

  lemma Extend(rules: Rules, s: Sys, es: seq<Event>, e: Event)
    requires Feasible(rules, s, es) && Enabled(rules, After(rules, s, es), e)
    ensures Feasible(rules, s, es + [e])
    ensures After(rules, s, es + [e]) == Do(rules, After(rules, s, es), e)
  {
  }

  // ----- what holds on every run

  /** The candidates of a live run carry its id and claim time, and are young enough. */
  ghost predicate Carried(rules: Rules, s: Sys, r: RunId)
    requires r in s.live
  {
    && s.clock - s.live[r].claimedAt <= rules.staleMs
    && (s.live[r].asked.Some? ==> s.live[r].asked.value.fp in s.live[r].candidates)
    && forall fp :: fp in s.live[r].candidates ==>
                      && fp in s.table
                      && s.table[fp].claimRunId == Some(r)
                      && s.table[fp].claimedAt == Some(s.live[r].claimedAt)
  }

  /** A run that is over left its id only on notified postings, or died holding claims. */
  ghost predicate Inv(rules: Rules, s: Sys) {
    && (forall r :: r in s.live ==> r in s.used && Carried(rules, s, r))
    && (forall fp :: fp in s.table ==>
                       && (s.table[fp].claimRunId.Some? <==> s.table[fp].claimedAt.Some?)
                       && (s.table[fp].claimRunId.Some? ==> s.table[fp].claimRunId.value in s.used))
  }

  lemma NotClaimableWhileCarried(rules: Rules, s: Sys, r: RunId, fp: Fingerprint)
    requires Inv(rules, s) && r in s.live && fp in s.live[r].candidates
    ensures fp in s.table && !Claimable(s.table[fp], s.clock, rules.staleMs)
  {
  }

  lemma InvClaim(rules: Rules, s: Sys, e: Event)
    requires Inv(rules, s) && Enabled(rules, s, e) && e.Claim? && 0 <= rules.staleMs
    ensures Inv(rules, Do(rules, s, e))
  {
  }

  lemma InvElsewhere(rules: Rules, s: Sys, e: Event)
    requires Inv(rules, s) && Enabled(rules, s, e) && !e.Claim?
    ensures Inv(rules, Do(rules, s, e))
  {
    var t := Do(rules, s, e);
    forall r | r in t.live
      ensures Carried(rules, t, r)
    {
      assert Carried(rules, s, r);
    }
  }

  lemma {:induction false} InvAlways(rules: Rules, clock: int, es: seq<Event>)
    requires 0 <= rules.staleMs && Feasible(rules, Initial(clock), es)
    ensures Inv(rules, After(rules, Initial(clock), es))
  {
    if es != [] {
      var before := es[..|es| - 1];
      InvAlways(rules, clock, before);
      hide Inv;
      var s := After(rules, Initial(clock), before);
      if es[|es| - 1].Claim? {
        InvClaim(rules, s, es[|es| - 1]);
      } else {
        InvElsewhere(rules, s, es[|es| - 1]);
      }
    }
  }

  // ----- the theorems

  /** Runs that are live at the same time never work on the same posting. */
  lemma LiveCandidatesDisjoint(rules: Rules, clock: int, es: seq<Event>, a: RunId, b: RunId)
    requires 0 <= rules.staleMs && Feasible(rules, Initial(clock), es)
    requires var s := After(rules, Initial(clock), es); a in s.live && b in s.live && a != b
    ensures var s := After(rules, Initial(clock), es); s.live[a].candidates !! s.live[b].candidates
  {
    InvAlways(rules, clock, es);
    var s := After(rules, Initial(clock), es);
    assert Carried(rules, s, a) && Carried(rules, s, b);
  }

  /**
   * What a claim takes: exactly the postings that are not notified, discarded or duplicate,
   * that no live run holds, and whose last claim, if any, was left by a run that died more
   * than the staleness bound ago.
   */
  lemma ClaimTakesExactlyTheFree(rules: Rules, clock: int, es: seq<Event>, run: RunId, fp: Fingerprint)
    requires 0 <= rules.staleMs && Feasible(rules, Initial(clock), es)
    requires run !in After(rules, Initial(clock), es).used
    ensures var s := After(rules, Initial(clock), es);
            fp in Do(rules, s, Claim(run)).live[run].candidates <==>
            && fp in s.table && Active(s.table[fp]) && !Held(s, fp)
            && (s.table[fp].claimedAt.Some? ==> s.clock - s.table[fp].claimedAt.value > rules.staleMs)
  {
    InvAlways(rules, clock, es);
    var s := After(rules, Initial(clock), es);
    if Held(s, fp) {
      var r :| r in s.live && fp in s.live[r].candidates;
      NotClaimableWhileCarried(rules, s, r, fp);
    }
  }

  /** No un-notified posting carries the run's id. */
  ghost predicate LeftNothing(s: Sys, run: RunId) {
    forall fp :: fp in s.table && s.table[fp].claimRunId == Some(run) ==> s.table[fp].notifiedAt.Some?
  }

  lemma LeftNothingStep(rules: Rules, s: Sys, e: Event, run: RunId)
    requires Enabled(rules, s, e)
    requires (run in s.used && LeftNothing(s, run)) || e == Release(run)
    ensures LeftNothing(Do(rules, s, e), run) && run in Do(rules, s, e).used
  {
  }

  /** Once a run has released its claims, no un-notified posting ever carries its id again. */
  lemma {:induction false} ReleasedForGood(rules: Rules, s: Sys, run: RunId, es: seq<Event>)
    requires Feasible(rules, Do(rules, s, Release(run)), es)
    ensures LeftNothing(After(rules, Do(rules, s, Release(run)), es), run)
    ensures run in After(rules, Do(rules, s, Release(run)), es).used
  {
    if es == [] {
      LeftNothingStep(rules, s, Release(run), run);
    } else {
      var before := es[..|es| - 1];
      ReleasedForGood(rules, s, run, before);
      LeftNothingStep(rules, After(rules, Do(rules, s, Release(run)), before), es[|es| - 1], run);
    }
  }

  // ----- what a run may rely on while others interleave

  predicate Of(e: Event, run: RunId) {
    match e
    case Claim(r) => r == run
    case MarkNotified(r, _, _) => r == run
    case Call(r, _, _) => r == run
    case Release(r) => r == run
    case Die(r) => r == run
    case RecordFailure(r, _, _) => r == run
    case ClearFailures(r, _) => r == run
    case _ => false
  }

  /** Nobody else starts, ends or notifies a run's candidates, or moves their counters. */
  ghost predicate Kept(s: Sys, t: Sys, run: RunId) {
    && (run in t.used <==> run in s.used) && (run in t.live <==> run in s.live)
    && (run in s.live ==>
          && t.live[run] == s.live[run]
          && forall fp :: fp in s.live[run].candidates ==>
                            && fp in s.table && fp in t.table
                            && t.table[fp].claimRunId == s.table[fp].claimRunId == Some(run)
                            && t.table[fp].notifiedAt == s.table[fp].notifiedAt
                            && t.table[fp].scoreFailureCount == s.table[fp].scoreFailureCount)
  }

  lemma KeptByOthers(rules: Rules, s: Sys, e: Event, run: RunId)
    requires Inv(rules, s) && Enabled(rules, s, e) && !Of(e, run)
    ensures Kept(s, Do(rules, s, e), run)
  {
    if run in s.live {
      assert Carried(rules, s, run);
      if e.Claim? {
        forall fp | fp in s.live[run].candidates
          ensures fp in s.table && !Claimable(s.table[fp], s.clock, rules.staleMs)
        {
          NotClaimableWhileCarried(rules, s, run, fp);
        }
      }
      if e.MarkNotified? || e.RecordFailure? || e.ClearFailures? {
        assert Carried(rules, s, e.run);
      }
    }
  }

  lemma KeptTwice(s: Sys, t: Sys, u: Sys, run: RunId)
    requires Kept(s, t, run) && Kept(t, u, run)
    ensures Kept(s, u, run)
  {
  }
}
