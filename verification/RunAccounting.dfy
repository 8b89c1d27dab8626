/** What a delivery run writes down about the postings that passed its pre-filter. */
module RunAccounting {

  datatype Reason = InvalidOutput | ExtractionFailed | MatchingFailed | MaxRetriesExceeded

  /** A name in `score_failure_counts`. */
  datatype Key = Named(reason: Reason) | NotAttemptedAfterRunFailure | DeferredInternationalBudget

  /** What became of one posting that passed the pre-filter. */
  datatype Fate = Scored | Failed(reason: Reason) | Deferred | NotAttempted

  type Id = string

  // ----- sums

  ghost function Sum<K>(m: map<K, nat>): nat {
    if m == map[] then 0
    else
      var k :| k in m;
      m[k] + Sum(m - {k})
  }

  ghost function Get<K>(m: map<K, nat>, k: K): nat {
    if k in m then m[k] else 0
  }

  lemma {:induction false} SumWithout<K>(m: map<K, nat>, k: K)
    ensures Sum(m) == Get(m, k) + Sum(m - {k})
    decreases |m|
  {
    if k !in m {
      assert m - {k} == m;
    } else {
      var j :| j in m && Sum(m) == m[j] + Sum(m - {j});
      if j != k {
        SumWithout(m - {j}, k);
        SumWithout(m - {k}, j);
        assert m - {j} - {k} == m - {k} - {j};
      }
    }
  }

  lemma SumWith<K>(m: map<K, nat>, k: K, v: nat)
    requires k !in m
    ensures Sum(m[k := v]) == Sum(m) + v
  {
    SumWithout(m[k := v], k);
    assert m[k := v] - {k} == m;
  }

  predicate AllNamed(m: map<Key, nat>) {
    forall k :: k in m ==> k.Named?
  }

  lemma {:induction false} SumOfReasons(m: map<Key, nat>)
    requires AllNamed(m)
    ensures Sum(m) == Get(m, Named(InvalidOutput)) + Get(m, Named(ExtractionFailed))
                      + Get(m, Named(MatchingFailed)) + Get(m, Named(MaxRetriesExceeded))
    decreases |m|
  {
    if m != map[] {
      var k :| k in m;
      SumWithout(m, k);
      SumOfReasons(m - {k});
      assert k.reason.InvalidOutput? || k.reason.ExtractionFailed? || k.reason.MatchingFailed?
             || k.reason.MaxRetriesExceeded?;
    }
  }

  // ----- finalScoreFailureCounts

  method SumValues(counts: map<Key, nat>) returns (sum: nat)
    ensures sum == Sum(counts)
  {
    sum := 0;
    var values := counts;
    while values != map[]
      invariant sum + Sum(values) == Sum(counts)
      decreases |values|
    {
      var r :| r in values;
      SumWithout(values, r);
      sum := sum + values[r];
      values := values - {r};
    }
  }

  /**
   * The recorded breakdown adds up to the postings left without a score exactly when the
   * counters it is computed from do not overshoot the filtered count.
   */
  method FinalScoreFailureCounts(filtered: nat, scored: nat, deferred: nat, counts: map<Key, nat>)
    returns (final: map<Key, nat>)
    requires AllNamed(counts)
    ensures Sum(final) == filtered - scored <==> scored + deferred + Sum(counts) <= filtered
    ensures forall r :: Get(final, Named(r)) == Get(counts, Named(r))
    ensures forall r :: Named(r) in final <==> Named(r) in counts
    ensures DeferredInternationalBudget in final <==> deferred > 0
    ensures NotAttemptedAfterRunFailure in final <==> scored + deferred + Sum(counts) < filtered
    ensures Get(final, DeferredInternationalBudget) == deferred
    ensures Get(final, NotAttemptedAfterRunFailure)
         == if scored + deferred + Sum(counts) <= filtered then filtered - scored - deferred - Sum(counts) else 0
  {
    var recordedFailures := SumValues(counts);
    final := counts;
    var notAttempted := filtered - deferred - scored - recordedFailures;
    if notAttempted > 0 {
      SumWith(final, NotAttemptedAfterRunFailure, notAttempted);
      final := final[NotAttemptedAfterRunFailure := notAttempted];
    }
    if deferred > 0 {
      SumWith(final, DeferredInternationalBudget, deferred);
      final := final[DeferredInternationalBudget := deferred];
    }
  }

  // ----- what the counters count

  ghost function With(fate: map<Id, Fate>, f: Fate): set<Id> {
    set p | p in fate && fate[p] == f
  }

  ghost function Tally(fate: map<Id, Fate>, f: Fate): nat {
    |With(fate, f)|
  }

  lemma TallyAdds(fate: map<Id, Fate>, p: Id, to: Fate, f: Fate)
    requires p !in fate
    ensures Tally(fate[p := to], f) == Tally(fate, f) + if f == to then 1 else 0
  {
    assert With(fate[p := to], f) == if f == to then With(fate, f) + {p} else With(fate, f);
  }

  lemma TallyMoves(fate: map<Id, Fate>, p: Id, to: Fate, f: Fate)
    requires p in fate && fate[p] != to
    ensures Tally(fate[p := to], f)
         == Tally(fate, f) + if f == to then 1 else if f == fate[p] then -1 else 0
  {
    assert With(fate[p := to], f)
        == if f == to then With(fate, f) + {p} else if f == fate[p] then With(fate, f) - {p} else With(fate, f);
  }

  ghost function AllTallies(fate: map<Id, Fate>): nat {
    Tally(fate, Scored) + Tally(fate, Deferred) + Tally(fate, NotAttempted)
    + Tally(fate, Failed(InvalidOutput)) + Tally(fate, Failed(ExtractionFailed))
    + Tally(fate, Failed(MatchingFailed)) + Tally(fate, Failed(MaxRetriesExceeded))
  }

  /** Every posting has exactly one fate. */
  lemma {:induction false} TalliesAddUp(fate: map<Id, Fate>)
    ensures AllTallies(fate) == |fate|
    decreases |fate|
  {
    if fate == map[] {
      assert forall f :: With(fate, f) == {};
    } else {
      var p :| p in fate;
      var rest := fate - {p};
      TalliesAddUp(rest);
      assert rest[p := fate[p]] == fate;
      forall f
        ensures Tally(fate, f) == Tally(rest, f) + if f == fate[p] then 1 else 0
      {
        TallyAdds(rest, p, fate[p], f);
      }
      assert fate[p].Failed? ==> fate[p].reason.InvalidOutput? || fate[p].reason.ExtractionFailed?
                                 || fate[p].reason.MatchingFailed? || fate[p].reason.MaxRetriesExceeded?;
    }
  }

  /** The counters are the tallies of what really happened. */
  ghost predicate Accounted(fate: map<Id, Fate>, filtered: nat, scored: nat, deferred: nat,
                                     counts: map<Key, nat>)
  {
    && filtered == |fate| && scored == Tally(fate, Scored) && deferred == Tally(fate, Deferred)
    && AllNamed(counts) && forall r :: Get(counts, Named(r)) == Tally(fate, Failed(r))
  }

  lemma {:induction false} AccountedAddsUp(fate: map<Id, Fate>, filtered: nat, scored: nat, deferred: nat,
                                 counts: map<Key, nat>)
    requires Accounted(fate, filtered, scored, deferred, counts)
    ensures scored + deferred + Sum(counts) + Tally(fate, NotAttempted) == filtered
  {
    TalliesAddUp(fate);
    SumOfReasons(counts);
  }

  // ----- what the operator is told

  datatype Breakdown = Nothing | ByName(failures: map<Key, nat>) | Unclassified(missing: nat)

  /** evaluateDeliveryOutcome trusts the stored breakdown only when it adds up. */
  ghost function Reported(filtered: nat, scored: nat, failures: map<Key, nat>): Breakdown {
    var missing := filtered - scored;
    if missing <= 0 then Nothing
    else if Sum(failures) == missing then ByName(failures)
    else Unclassified(missing)
  }
}
