/**
 * What all runs together do to one posting is a history of the budget machine, ending in the
 * counter stored in the table; so the bounds on such histories are bounds on what is spent.
 */
module SpendOverRuns {
  import opened Wrappers
  import opened PostingRows
  import opened ScoringClaims
  import Budget = ScoreBudget

  predicate Asking(s: Sys, run: RunId, fp: Fingerprint) {
    run in s.live && s.live[run].asked.Some? && s.live[run].asked.value.fp == fp
  }

  /** What an event means for the budget of one posting. A run that ends in mid-call abandons it. */
  function Meaning(s: Sys, e: Event, fp: Fingerprint): seq<Budget.Event> {
    match e
    case Call(_, p, ok) => if p == fp then [Budget.Call(ok)] else []
    case RecordFailure(_, p, _) => if p == fp then [Budget.Write] else []
    case ClearFailures(_, p) => if p == fp then [Budget.Write] else []
    case Release(run) => if Asking(s, run, fp) then [Budget.Abandon] else []
    case Die(run) => if Asking(s, run, fp) then [Budget.Abandon] else []
    case Rescore(p) => if p == fp then [Budget.Rescore] else []
    case _ => []
  }

  ghost function History(rules: Rules, s: Sys, es: seq<Event>, fp: Fingerprint): seq<Budget.Event>
    requires Feasible(rules, s, es)
  {
    if es == [] then []
    else
      var before := es[..|es| - 1];
      History(rules, s, before, fp) + Meaning(After(rules, s, before), es[|es| - 1], fp)
  }

  function Counter(s: Sys, fp: Fingerprint): nat {
    if fp in s.table then s.table[fp].scoreFailureCount else 0
  }

  /** The budget's counter is the stored one, and its pending call is some run's. */
  ghost predicate Matches(s: Sys, fp: Fingerprint, b: Budget.Spend) {
    && b.failures == Counter(s, fp)
    && (b.pending.Nothing? <==> forall r :: !Asking(s, r, fp))
    && (forall r :: Asking(s, r, fp) ==>
                      b.pending == if s.live[r].asked.value.ok then Budget.Succeeding else Budget.Failing)
  }

  /** A posting is asked about by one run at a time. */
  lemma AskedByOne(rules: Rules, s: Sys, a: RunId, b: RunId, fp: Fingerprint)
    requires Inv(rules, s) && Asking(s, a, fp) && b in s.live && fp in s.live[b].candidates
    ensures a == b
  {
    assert Carried(rules, s, a) && Carried(rules, s, b);
  }

  ghost predicate Advances(rules: Rules, s: Sys, e: Event, fp: Fingerprint, b: Budget.Spend)
    requires Enabled(rules, s, e)
  {
    var t := Do(rules, s, e);
    if Meaning(s, e, fp) == [] then Matches(t, fp, b)
    else
      var x := Meaning(s, e, fp)[0];
      Budget.Enabled(rules.maxFailures, b, x) && Matches(t, fp, Budget.Do(rules.maxFailures, b, x))
  }

  lemma CallAdvances(rules: Rules, s: Sys, e: Event, fp: Fingerprint, b: Budget.Spend)
    requires Inv(rules, s) && Enabled(rules, s, e) && Matches(s, fp, b)
    requires e.Call? || e.RecordFailure? || e.ClearFailures?
    ensures Advances(rules, s, e, fp, b)
  {
    assert Carried(rules, s, e.run);
    hide Inv;
    var t := Do(rules, s, e);
    forall r | Asking(s, r, fp) && e.fp == fp
      ensures r == e.run
    {
      AskedByOne(rules, s, r, e.run, fp);
    }
    forall r
      ensures Asking(t, r, fp) <==> if e.fp == fp then e.Call? && r == e.run else Asking(s, r, fp)
    {
      assert Asking(s, r, fp) || !Asking(s, r, fp);
    }
    if e.fp == fp {
      assert e.Call? ==> Asking(t, e.run, fp) && !Asking(s, e.run, fp);
      assert !e.Call? ==> Asking(s, e.run, fp);
    } else {
      assert forall r :: Asking(t, r, fp) ==> t.live[r].asked == s.live[r].asked;
    }
  }

  lemma EndAdvances(rules: Rules, s: Sys, e: Event, fp: Fingerprint, b: Budget.Spend)
    requires Inv(rules, s) && Enabled(rules, s, e) && Matches(s, fp, b)
    requires e.Release? || e.Die?
    ensures Advances(rules, s, e, fp, b)
  {
    if Asking(s, e.run, fp) {
      assert Carried(rules, s, e.run);
      forall r | Asking(s, r, fp)
        ensures r == e.run
      {
        AskedByOne(rules, s, r, e.run, fp);
      }
    }
    var t := Do(rules, s, e);
    assert Counter(t, fp) == Counter(s, fp);
    assert forall r :: Asking(t, r, fp) <==> Asking(s, r, fp) && r != e.run;
  }

  lemma RescoreAdvances(rules: Rules, s: Sys, e: Event, fp: Fingerprint, b: Budget.Spend)
    requires Inv(rules, s) && Enabled(rules, s, e) && Matches(s, fp, b) && e.Rescore?
    ensures Advances(rules, s, e, fp, b)
  {
    forall r | r in s.live
      ensures Carried(rules, s, r)
    {
    }
    forall r | Asking(s, r, e.fp)
      ensures Held(s, e.fp)
    {
    }
    var t := Do(rules, s, e);
    assert forall r :: Asking(t, r, fp) <==> Asking(s, r, fp);
    assert e.fp == fp ==> forall r :: !Asking(s, r, fp);
  }

  lemma OtherAdvances(rules: Rules, s: Sys, e: Event, fp: Fingerprint, b: Budget.Spend)
    requires Inv(rules, s) && Enabled(rules, s, e) && Matches(s, fp, b)
    requires Meaning(s, e, fp) == [] && !e.Call? && !e.RecordFailure? && !e.ClearFailures?
    requires !e.Release? && !e.Die? && !e.Rescore?
    ensures Advances(rules, s, e, fp, b)
  {
    if e.Claim? {
      assert e.run !in s.live;
    }
    var t := Do(rules, s, e);
    assert Counter(t, fp) == Counter(s, fp);
    assert forall r :: Asking(t, r, fp) <==> Asking(s, r, fp);
  }

  lemma StepAdvances(rules: Rules, s: Sys, e: Event, fp: Fingerprint, b: Budget.Spend)
    requires Inv(rules, s) && Enabled(rules, s, e) && Matches(s, fp, b)
    ensures Advances(rules, s, e, fp, b)
  {
    hide Inv, Enabled, Matches, Advances;
    match e {
      case Call(_, _, _) => CallAdvances(rules, s, e, fp, b);
      case RecordFailure(_, _, _) => CallAdvances(rules, s, e, fp, b);
      case ClearFailures(_, _) => CallAdvances(rules, s, e, fp, b);
      case Release(_) => EndAdvances(rules, s, e, fp, b);
      case Die(_) => EndAdvances(rules, s, e, fp, b);
      case Rescore(_) => RescoreAdvances(rules, s, e, fp, b);
      case _ => OtherAdvances(rules, s, e, fp, b);
    }
  }

  /**
   * Over any interleaving of runs: what they do to a posting is a budget history that ends in
   * the posting's stored counter.
   */
  lemma {:induction false} RunsSpendByTheBudget(rules: Rules, clock: int, es: seq<Event>, fp: Fingerprint)
    requires 0 <= rules.staleMs && Feasible(rules, Initial(clock), es)
    ensures var h := History(rules, Initial(clock), es, fp);
            && Budget.Feasible(rules.maxFailures, Budget.FRESH, h)
            && Matches(After(rules, Initial(clock), es), fp, Budget.After(rules.maxFailures, Budget.FRESH, h))
  {
    if es == [] {
      assert forall r :: !Asking(Initial(clock), r, fp);
    } else {
      var before := es[..|es| - 1];
      var e := es[|es| - 1];
      RunsSpendByTheBudget(rules, clock, before, fp);
      InvAlways(rules, clock, before);
      var s := After(rules, Initial(clock), before);
      var h := History(rules, Initial(clock), before, fp);
      var b := Budget.After(rules.maxFailures, Budget.FRESH, h);
      StepAdvances(rules, s, e, fp, b);
      hide Inv, Matches, Enabled;
      if Meaning(s, e, fp) == [] {
        assert h + Meaning(s, e, fp) == h;
      } else {
        Budget.Extend(rules.maxFailures, Budget.FRESH, h, Meaning(s, e, fp)[0]);
        assert Meaning(s, e, fp) == [Meaning(s, e, fp)[0]];
      }
    }
  }

  /**
   * Bounded spend: over any sequence of runs a posting never has more consecutive failing
   * calls behind it than the ceiling plus the calls that some run never wrote down, and no
   * more than the ceiling when no run ended in mid-call with it.
   */
  lemma ConsecutiveFailuresAreBounded(rules: Rules, clock: int, es: seq<Event>, fp: Fingerprint)
    requires 0 <= rules.staleMs && Feasible(rules, Initial(clock), es)
    ensures var h := History(rules, Initial(clock), es, fp);
            && Budget.Feasible(rules.maxFailures, Budget.FRESH, h)
            && var b := Budget.After(rules.maxFailures, Budget.FRESH, h);
               && b.streak <= rules.maxFailures + b.unwritten
               && (Budget.NeverAbandoned(h) ==> b.streak <= rules.maxFailures)
  {
    RunsSpendByTheBudget(rules, clock, es, fp);
    var h := History(rules, Initial(clock), es, fp);
    Budget.SpendIsBounded(rules.maxFailures, h);
    if Budget.NeverAbandoned(h) {
      Budget.AtMostMaxConsecutiveFailures(rules.maxFailures, h);
    }
  }
}
