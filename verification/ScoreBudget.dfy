/**
 * How often one posting is sent to the scorer. Between the call and the write of its
 * outcome the run records an event; if that throws, or the process dies, the write never
 * happens, and the counter the next run consults has missed a call. SpendOverRuns shows that
 * what any number of runs do to a posting is a history of this machine.
 */
module ScoreBudget {

  /**
   * `failures` is the stored counter. The rest is history: failing calls since the last
   * success or manual rescore, how many of those were never written down, and the outcome
   * of a call still to be written.
   */
  datatype Spend = Spend(failures: nat, streak: nat, unwritten: nat, pending: Pending)

  datatype Pending = Nothing | Failing | Succeeding

  datatype Event =
    | Call(ok: bool)     // the scorer is called
    | Write              // recordScoreFailure or clearScoreFailures
    | Abandon            // the run throws or dies before that
    | Rescore            // the manual reset

  const FRESH := Spend(0, 0, 0, Nothing)

  predicate Enabled(max: nat, s: Spend, e: Event) {
    match e
    case Call(_) => s.pending.Nothing? && s.failures < max
    case Write => !s.pending.Nothing?
    case Abandon => !s.pending.Nothing?
    case Rescore => s.pending.Nothing? && s.failures > 0
  }

  function Do(max: nat, s: Spend, e: Event): Spend
    requires Enabled(max, s, e)
  {
    match e
    case Call(ok) =>
      if ok then s.(streak := 0, unwritten := 0, pending := Succeeding)
      else s.(streak := s.streak + 1, pending := Failing)
    case Write =>
      if s.pending.Failing? then s.(failures := s.failures + 1, pending := Nothing)
      else s.(failures := 0, pending := Nothing)
    case Abandon =>
      if s.pending.Failing? then s.(unwritten := s.unwritten + 1, pending := Nothing)
      else s.(pending := Nothing)
    case Rescore => FRESH
  }

  ghost predicate Feasible(max: nat, s: Spend, es: seq<Event>)
    decreases |es|, 0
  {
    es == [] ||
    (Feasible(max, s, es[..|es| - 1]) && Enabled(max, After(max, s, es[..|es| - 1]), es[|es| - 1]))
  }

  ghost function After(max: nat, s: Spend, es: seq<Event>): Spend
    requires Feasible(max, s, es)
    decreases |es|, 1
  {
    if es == [] then s else Do(max, After(max, s, es[..|es| - 1]), es[|es| - 1])
  }

  lemma Extend(max: nat, s: Spend, es: seq<Event>, e: Event)
    requires Feasible(max, s, es) && Enabled(max, After(max, s, es), e)
    ensures Feasible(max, s, es + [e]) && After(max, s, es + [e]) == Do(max, After(max, s, es), e)
  {
    assert (es + [e])[..|es + [e]| - 1] == es;
  }

  predicate Within(max: nat, s: Spend) {
    && s.failures <= max
    && (s.pending.Failing? ==> s.failures < max)
    && (s.pending.Succeeding? ==> s.streak == 0)
    && s.streak <= s.failures + s.unwritten + if s.pending.Failing? then 1 else 0
  }

  lemma WithinStep(max: nat, s: Spend, e: Event)
    requires Within(max, s) && Enabled(max, s, e)
    ensures Within(max, Do(max, s, e))
  {
  }

  /**
   * A posting never has more consecutive failing calls behind it than the ceiling plus the
   * calls whose outcome was never written; and it gets a next call exactly while the stored
   * counter is below the ceiling.
   */
  lemma {:induction false} SpendIsBounded(max: nat, es: seq<Event>)
    requires Feasible(max, FRESH, es)
    ensures Within(max, After(max, FRESH, es))
    ensures After(max, FRESH, es).streak <= max + After(max, FRESH, es).unwritten
    ensures After(max, FRESH, es).pending.Nothing? ==>
              ((exists ok :: Enabled(max, After(max, FRESH, es), Call(ok))) <==> After(max, FRESH, es).failures < max)
  {
    if es != [] {
      SpendIsBounded(max, es[..|es| - 1]);
      WithinStep(max, After(max, FRESH, es[..|es| - 1]), es[|es| - 1]);
    }
    var s := After(max, FRESH, es);
    assert Enabled(max, s, Call(true)) || s.failures >= max || !s.pending.Nothing?;
  }

  predicate NeverAbandoned(es: seq<Event>) {
    forall i :: 0 <= i < |es| ==> !es[i].Abandon?
  }

  /** No failing call is missing from the stored counter. */
  predicate Settled(max: nat, s: Spend) {
    && s.failures <= max
    && (s.pending.Failing? ==> s.failures < max)
    && (s.pending.Succeeding? ==> s.streak == 0)
    && s.streak <= s.failures + (if s.pending.Failing? then 1 else 0)
  }

  lemma {:induction false} SettledWhileWritten(max: nat, s: Spend, es: seq<Event>)
    requires Settled(max, s) && Feasible(max, s, es) && NeverAbandoned(es)
    ensures Settled(max, After(max, s, es))
  {
    if es != [] {
      SettledWhileWritten(max, s, es[..|es| - 1]);
    }
  }

  function Failures(n: nat): seq<Event> {
    if n == 0 then [] else Failures(n - 1) + [Call(false), Write]
  }

  lemma {:induction false} FailUpTo(max: nat, s: Spend, n: nat)
    requires s.pending.Nothing? && s.failures + n <= max
    ensures Feasible(max, s, Failures(n)) && NeverAbandoned(Failures(n))
    ensures After(max, s, Failures(n)) == s.(failures := s.failures + n, streak := s.streak + n)
  {
    if n > 0 {
      FailUpTo(max, s, n - 1);
      var es := Failures(n - 1);
      Extend(max, s, es, Call(false));
      Extend(max, s, es + [Call(false)], Write);
      assert es + [Call(false)] + [Write] == Failures(n);
    }
  }

  /**
   * The ceiling bounds consecutive failures, as long as every outcome is written, exactly
   * from the states in which no failing call is missing from the stored counter.
   */
  lemma CeilingBoundsExactly(max: nat, s: Spend)
    requires s.pending.Nothing? && s.failures <= max
    ensures s.streak <= s.failures <==>
            (forall es :: Feasible(max, s, es) && NeverAbandoned(es) ==> After(max, s, es).streak <= max)
  {
    if s.streak <= s.failures {
      forall es | Feasible(max, s, es) && NeverAbandoned(es)
        ensures After(max, s, es).streak <= max
      {
        SettledWhileWritten(max, s, es);
      }
    } else {
      FailUpTo(max, s, max - s.failures);
    }
  }

  /** In particular over any history in which every outcome is written. */
  lemma AtMostMaxConsecutiveFailures(max: nat, es: seq<Event>)
    requires Feasible(max, FRESH, es) && NeverAbandoned(es)
    ensures After(max, FRESH, es).streak <= max
  {
    CeilingBoundsExactly(max, FRESH);
  }

  /** At the ceiling, no call is ever made again without a manual rescore. */
  lemma {:induction false} ExhaustedStaysExhausted(max: nat, s: Spend, more: seq<Event>)
    requires s.failures >= max && s.pending.Nothing? && Feasible(max, s, more)
    requires forall i :: 0 <= i < |more| ==> !more[i].Rescore?
    ensures more == []
  {
    if more != [] {
      ExhaustedStaysExhausted(max, s, more[..|more| - 1]);
    }
  }

  function Interrupted(n: nat): seq<Event> {
    if n == 0 then [] else Interrupted(n - 1) + [Call(false), Abandon]
  }

  /**
   * Without that proviso there is no bound: runs that stop between the failing call and its
   * write repeat for ever, the stored counter staying at zero.
   */
  lemma {:induction false} InterruptedCallsAreUnbounded(max: nat, n: nat)
    requires max > 0
    ensures Feasible(max, FRESH, Interrupted(n))
    ensures After(max, FRESH, Interrupted(n)) == Spend(0, n, n, Nothing)
  {
    if n > 0 {
      InterruptedCallsAreUnbounded(max, n - 1);
      var es := Interrupted(n - 1);
      Extend(max, FRESH, es, Call(false));
      Extend(max, FRESH, es + [Call(false)], Abandon);
      assert es + [Call(false)] + [Abandon] == Interrupted(n);
    }
  }
}
