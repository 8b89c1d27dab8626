/**
 * What a delivery run makes of its candidates: the fate of each, what was done with the scorer
 * for it, what the digest says about it, and how these agree.
 */
module RunFates {
  import opened Wrappers
  import opened PostingRows
  import opened ScoringPool
  import opened RunAccounting
  import opened Digests
  import Budget = ScoreBudget

  /** What the scorer answers about a posting. */
  datatype ScoreResult =
    | Verdicted(verdict: Verdict, score: int, periodGated: bool)
    | Unscored(reason: Reason, permanent: bool)

  /** A fact about the run's configuration, not about the posting. */
  predicate Permanent(r: ScoreResult) {
    r.Unscored? && r.permanent
  }

  /** Worth a line of its own in the digest: not a discard, and not only a matter of time. */
  predicate Shown(r: ScoreResult) {
    r.Verdicted? && !r.periodGated && r.verdict != Verdict.Discard
  }

  predicate Distinct(s: seq<Fingerprint>) {
    forall i, j :: 0 <= i < j < |s| ==> s[i] != s[j]
  }

  lemma {:induction false} DistinctMultiset(s: seq<Fingerprint>)
    ensures Distinct(s) <==> forall x :: multiset(s)[x] <= 1
  {
    if s != [] {
      var front, last := s[..|s| - 1], s[|s| - 1];
      DistinctMultiset(front);
      assert s == front + [last];
      assert multiset(s) == multiset(front) + multiset{last};
      assert Distinct(s) <==> Distinct(front) && last !in front by {
        if Distinct(front) && last !in front {
          assert forall i, j :: 0 <= i < j < |s| ==> s[i] == front[i] && (s[j] == last || s[j] in front);
        }
      }
      assert last in front <==> multiset(front)[last] > 0;
      assert forall x :: multiset(s)[x] == multiset(front)[x] + if x == last then 1 else 0;
      if forall x :: multiset(s)[x] <= 1 {
        assert multiset(s)[last] <= 1;
      }
    }
  }

  lemma SameElements(s: seq<Fingerprint>, t: seq<Fingerprint>)
    requires multiset(s) == multiset(t) && Distinct(s)
    ensures Distinct(t) && |s| == |t| && forall x :: x in s <==> x in t
  {
    DistinctMultiset(s);
    DistinctMultiset(t);
    assert |multiset(s)| == |s| && |multiset(t)| == |t|;
    assert forall x :: x in s <==> x in multiset(s);
    assert forall x :: x in t <==> x in multiset(t);
  }

  lemma {:induction false} DistinctSize(s: seq<Fingerprint>)
    requires Distinct(s)
    ensures |set fp | fp in s| == |s|
  {
    if s != [] {
      var front, last := s[..|s| - 1], s[|s| - 1];
      DistinctSize(front);
      assert s == front + [last];
      assert (set fp | fp in s) == (set fp | fp in front) + {last};
    }
  }

  ghost function FirstFate(admitted: seq<Fingerprint>, deferred: seq<Fingerprint>): map<Fingerprint, Fate> {
    map fp | fp in admitted + deferred :: if fp in deferred then Deferred else NotAttempted
  }

  lemma FirstFateCounted(admitted: seq<Fingerprint>, deferred: seq<Fingerprint>)
    requires Distinct(admitted + deferred)
    ensures Accounted(FirstFate(admitted, deferred), |admitted + deferred|, 0, |deferred|, map[])
    ensures forall fp :: fp in admitted ==> FirstFate(admitted, deferred)[fp] == NotAttempted
  {
    var fate := FirstFate(admitted, deferred);
    DistinctSize(admitted + deferred);
    assert fate.Keys == set fp | fp in admitted + deferred;
    assert Distinct(deferred) by {
      assert forall i :: 0 <= i < |deferred| ==> deferred[i] == (admitted + deferred)[|admitted| + i];
    }
    DistinctSize(deferred);
    assert With(fate, Deferred) == set fp | fp in deferred;
    assert With(fate, Scored) == {};
    assert forall r :: With(fate, Failed(r)) == {};
    forall fp | fp in admitted
      ensures fp !in deferred
    {
      var i :| 0 <= i < |admitted| && admitted[i] == fp;
      assert forall j :: 0 <= j < |deferred| ==> deferred[j] == (admitted + deferred)[|admitted| + j];
      assert (admitted + deferred)[i] == fp;
    }
  }

  // ----- the international budget

  /** The international postings the run did not defer. */
  ghost function TakenAbroad(fate: map<Fingerprint, Fate>, national: Fingerprint -> bool): set<Fingerprint> {
    set fp | fp in fate && !national(fp) && fate[fp] != Deferred
  }

  /**
   * Nothing national is deferred, no more international postings are taken than the budget
   * says, and none is deferred before the budget is used up.
   */
  ghost predicate WithinBudget(fate: map<Fingerprint, Fate>, national: Fingerprint -> bool, budget: Option<nat>) {
    && (forall fp :: fp in fate && fate[fp] == Deferred ==> !national(fp))
    && (budget.None? ==> Tally(fate, Deferred) == 0)
    && (budget.Some? ==>
          && |TakenAbroad(fate, national)| <= budget.value
          && (Tally(fate, Deferred) > 0 ==> |TakenAbroad(fate, national)| == budget.value))
  }

  ghost predicate SameDeferred(fate: map<Fingerprint, Fate>, then_: map<Fingerprint, Fate>) {
    && fate.Keys == then_.Keys
    && forall fp :: fp in fate ==> (fate[fp] == Deferred <==> then_[fp] == Deferred)
  }

  lemma StillWithinBudget(fate: map<Fingerprint, Fate>, then_: map<Fingerprint, Fate>,
                          national: Fingerprint -> bool, budget: Option<nat>)
    requires WithinBudget(fate, national, budget) && SameDeferred(fate, then_)
    ensures WithinBudget(then_, national, budget)
  {
    assert With(then_, Deferred) == With(fate, Deferred);
    assert TakenAbroad(then_, national) == TakenAbroad(fate, national);
  }

  lemma DistinctPart(s: seq<Fingerprint>, t: seq<Fingerprint>, u: seq<Fingerprint>)
    requires Distinct(s + t + u)
    ensures Distinct(t)
  {
    assert forall i :: 0 <= i < |t| ==> t[i] == (s + t + u)[|s| + i];
  }

  lemma FirstFateWithinBudget(home: seq<Fingerprint>, abroad: seq<Fingerprint>, deferred: seq<Fingerprint>,
                              national: Fingerprint -> bool, budget: Option<nat>)
    requires Distinct(home + abroad + deferred)
    requires forall fp :: fp in home ==> national(fp)
    requires forall fp :: fp in abroad + deferred ==> !national(fp)
    requires budget.None? ==> deferred == []
    requires budget.Some? ==> |abroad| <= budget.value && (deferred != [] ==> |abroad| == budget.value)
    ensures WithinBudget(FirstFate(home + abroad, deferred), national, budget)
  {
    var fate := FirstFate(home + abroad, deferred);
    FirstFateCounted(home + abroad, deferred);
    DistinctPart(home, abroad, deferred);
    DistinctSize(abroad);
    assert TakenAbroad(fate, national) == set fp | fp in abroad;
  }

  // ----- the order of scoring

  function Abroad(national: Fingerprint -> bool): Fingerprint -> bool {
    fp => !national(fp)
  }

  function Cut(budget: Option<nat>, n: nat): nat {
    if budget.Some? && budget.value < n then budget.value else n
  }

  /** Who is scored, in this order: the national postings, then the best ranked international ones. */
  function Admitted(ranked: seq<Fingerprint>, national: Fingerprint -> bool, budget: Option<nat>): seq<Fingerprint> {
    var abroad := Only(ranked, Abroad(national));
    Only(ranked, national) + abroad[..Cut(budget, |abroad|)]
  }

  /** Who has to wait for a later run: the lowest ranked international postings. */
  function Postponed(ranked: seq<Fingerprint>, national: Fingerprint -> bool, budget: Option<nat>): seq<Fingerprint> {
    var abroad := Only(ranked, Abroad(national));
    abroad[Cut(budget, |abroad|)..]
  }

  /** Whoever was attempted, all before were attempted too. */
  ghost predicate AttemptedFirst(order: seq<Fingerprint>, fate: map<Fingerprint, Fate>) {
    forall i, j :: 0 <= i < j < |order| && order[i] in fate && order[j] in fate && fate[order[j]] != NotAttempted ==>
                     fate[order[i]] != NotAttempted
  }

  /** The fates follow the ranking: exactly the postponed are deferred, the others attempted in turn. */
  ghost predicate Scheduled(ranked: seq<Fingerprint>, fate: map<Fingerprint, Fate>, national: Fingerprint -> bool,
                            budget: Option<nat>)
  {
    && (set fp | fp in ranked) == fate.Keys
    && (forall fp :: fp in fate ==> (fate[fp] == Deferred <==> fp in Postponed(ranked, national, budget)))
    && AttemptedFirst(Admitted(ranked, national, budget), fate)
  }

  lemma FirstFateScheduled(ranked: seq<Fingerprint>, national: Fingerprint -> bool, budget: Option<nat>)
    requires var admitted, deferred := Admitted(ranked, national, budget), Postponed(ranked, national, budget);
             Distinct(admitted + deferred) && forall fp :: fp in admitted + deferred <==> fp in ranked
    ensures Scheduled(ranked, FirstFate(Admitted(ranked, national, budget), Postponed(ranked, national, budget)),
                      national, budget)
  {
    FirstFateCounted(Admitted(ranked, national, budget), Postponed(ranked, national, budget));
  }

  lemma StillScheduled(ranked: seq<Fingerprint>, fate: map<Fingerprint, Fate>, then_: map<Fingerprint, Fate>,
                       national: Fingerprint -> bool, budget: Option<nat>)
    requires Scheduled(ranked, fate, national, budget) && SameDeferred(fate, then_)
    requires AttemptedFirst(Admitted(ranked, national, budget), then_)
    ensures Scheduled(ranked, then_, national, budget)
  {
  }

  lemma AttemptedUpTo(order: seq<Fingerprint>, fate: map<Fingerprint, Fate>, n: nat)
    requires forall j :: 0 <= j < |order| ==> order[j] in fate
    requires forall j :: 0 <= j < n && j < |order| ==> fate[order[j]] != NotAttempted
    requires forall j :: n < j < |order| ==> fate[order[j]] == NotAttempted
    ensures AttemptedFirst(order, fate)
  {
  }

  // ----- what the entries say about the postings

  /** A later run need not look at the posting again. */
  ghost predicate Evaluated(fate: map<Fingerprint, Fate>, heard: map<Fingerprint, ScoreResult>, fp: Fingerprint) {
    fp in fate && (fate[fp] == Failed(MaxRetriesExceeded) || (fate[fp] == Scored && fp in heard && Shown(heard[fp])))
  }

  ghost predicate Tells(fate: map<Fingerprint, Fate>, heard: map<Fingerprint, ScoreResult>, e: Entry) {
    && e.fp in fate
    && match e.failure
       case Some(r) => fate[e.fp] == Failed(r) && e.verdict == Review
       case None =>
         && fate[e.fp] == Scored && e.fp in heard
         && heard[e.fp] == Verdicted(e.verdict, e.score, false)
  }

  /** The entries say, once each, exactly what became of the postings. */
  ghost predicate Told(fate: map<Fingerprint, Fate>, heard: map<Fingerprint, ScoreResult>, entries: seq<Entry>) {
    && OnceEach(entries)
    && (forall e :: e in entries ==> Tells(fate, heard, e))
    && (forall fp :: Evaluated(fate, heard, fp) ==> exists e :: e in entries && e.fp == fp)
  }

  /** What a posting adds to the entries when its fate is settled. */
  ghost predicate Adds(heard: map<Fingerprint, ScoreResult>, fp: Fingerprint, to: Fate, more: seq<Entry>) {
    match to
    case Failed(r) => |more| == 1 && more[0].fp == fp && more[0].failure == Some(r) && more[0].verdict == Review
    case Scored =>
      && fp in heard && heard[fp].Verdicted?
      && (if heard[fp].periodGated then more == []
          else |more| == 1 && more[0].fp == fp && more[0].failure == None
               && more[0].verdict == heard[fp].verdict && more[0].score == heard[fp].score)
    case _ => false
  }

  lemma ToldNext(fate: map<Fingerprint, Fate>, heard: map<Fingerprint, ScoreResult>, entries: seq<Entry>,
                 fp: Fingerprint, to: Fate, more: seq<Entry>)
    requires Told(fate, heard, entries) && fp in fate && fate[fp] == NotAttempted
    requires Adds(heard, fp, to, more)
    ensures Told(fate[fp := to], heard, entries + more)
  {
    var f := fate[fp := to];
    forall e | e in entries
      ensures Tells(f, heard, e) && e.fp != fp
    {
      assert Tells(fate, heard, e);
    }
    forall q | Evaluated(f, heard, q)
      ensures exists e :: e in entries + more && e.fp == q
    {
      if q == fp {
        assert more[0] in entries + more;
      } else {
        assert Evaluated(fate, heard, q);
        var e :| e in entries && e.fp == q;
        assert e in entries + more;
      }
    }
  }

  /** An answer alone, before it is acted on, changes nothing that is told. */
  lemma ToldWhenHeard(fate: map<Fingerprint, Fate>, heard: map<Fingerprint, ScoreResult>, entries: seq<Entry>,
                      fp: Fingerprint, answer: ScoreResult)
    requires Told(fate, heard, entries) && fp in fate && fate[fp] == NotAttempted
    ensures Told(fate, heard[fp := answer], entries)
  {
    var then_ := heard[fp := answer];
    forall e | e in entries
      ensures Tells(fate, then_, e)
    {
      assert Tells(fate, heard, e);
    }
    forall q | Evaluated(fate, then_, q)
      ensures exists e :: e in entries && e.fp == q
    {
      assert Evaluated(fate, heard, q);
    }
  }

  lemma FirstFateTells(admitted: seq<Fingerprint>, deferred: seq<Fingerprint>)
    requires Distinct(admitted + deferred)
    ensures Distinct(admitted) && Told(FirstFate(admitted, deferred), map[], [])
    ensures FirstFate(admitted, deferred).Keys == set fp | fp in admitted + deferred
    ensures forall fp :: fp in FirstFate(admitted, deferred) && fp !in admitted ==>
                           FirstFate(admitted, deferred)[fp] == Deferred
  {
    assert forall i :: 0 <= i < |admitted| ==> admitted[i] == (admitted + deferred)[i];
  }

  lemma SentTells(fate: map<Fingerprint, Fate>, heard: map<Fingerprint, ScoreResult>, entries: seq<Entry>,
                  sent: seq<Entry>)
    requires Told(fate, heard, entries) && OnceEach(sent)
    requires forall e :: e in sent <==> e in entries && Wanted(e)
    ensures Told(fate, heard, sent)
  {
    forall fp | Evaluated(fate, heard, fp)
      ensures exists e :: e in sent && e.fp == fp
    {
      var e :| e in entries && e.fp == fp;
      assert Tells(fate, heard, e);
    }
  }

  /** What the digest settles is exactly what was evaluated, and the digest tells it. */
  lemma SettlesExactly(fate: map<Fingerprint, Fate>, heard: map<Fingerprint, ScoreResult>, entries: seq<Entry>,
                       sent: seq<Entry>, fps: seq<Fingerprint>)
    requires Told(fate, heard, entries) && OnceEach(sent)
    requires forall e :: e in sent <==> e in entries && Wanted(e)
    requires forall fp :: fp in fps <==> exists e :: e in sent && e.fp == fp && !Recoverable(e)
    ensures forall fp :: fp in fps <==> Evaluated(fate, heard, fp)
    ensures Told(fate, heard, sent)
  {
    SentTells(fate, heard, entries, sent);
  }

  /** Notified are exactly the evaluated. */
  ghost predicate ExactlyMarked(fate: map<Fingerprint, Fate>, heard: map<Fingerprint, ScoreResult>,
                                marks: map<Fingerprint, Mark>)
  {
    forall fp :: fp in marks ==> (marks[fp].notified <==> Evaluated(fate, heard, fp))
  }

  ghost predicate NoneMarked(marks: map<Fingerprint, Mark>) {
    forall fp :: fp in marks ==> !marks[fp].notified
  }

  lemma MarkedExactly(fate: map<Fingerprint, Fate>, heard: map<Fingerprint, ScoreResult>, marks: map<Fingerprint, Mark>,
                      marked: map<Fingerprint, Mark>, fps: seq<Fingerprint>)
    requires NoneMarked(marks) && marked.Keys == marks.Keys
    requires forall fp :: fp in marks ==> marked[fp] == if fp in fps then marks[fp].(notified := true) else marks[fp]
    requires forall fp :: fp in fps <==> Evaluated(fate, heard, fp)
    ensures ExactlyMarked(fate, heard, marked)
    ensures forall fp :: fp in marks ==> marked[fp].failures == marks[fp].failures
  {
  }

  // ----- the failure counters

  /** One run's dealings with the scorer for one posting, from one stored counter to the next. */
  ghost predicate Turn(max: nat, before: nat, es: seq<Budget.Event>, now: nat) {
    || (es == [] && now == before)
    || (before < max && now == before && exists ok :: es == [Budget.Call(ok)])
    || (before < max && now == 0 && es == [Budget.Call(true), Budget.Write])
    || (before < max && now == before + 1 && es == [Budget.Call(false), Budget.Write])
  }

  /** Each candidate's counter is where its turn left it. */
  ghost predicate InTurn(max: nat, before: map<Fingerprint, nat>, turns: map<Fingerprint, seq<Budget.Event>>,
                         marks: map<Fingerprint, Mark>)
  {
    && before.Keys == turns.Keys == marks.Keys
    && forall fp :: fp in marks ==> Turn(max, before[fp], turns[fp], marks[fp].failures)
  }

  lemma TurnWritten(max: nat, before: map<Fingerprint, nat>, turns: map<Fingerprint, seq<Budget.Event>>,
                    marks: map<Fingerprint, Mark>, fp: Fingerprint, ok: bool)
    requires InTurn(max, before, turns, marks) && fp in turns && turns[fp] == [Budget.Call(ok)]
    ensures InTurn(max, before, turns[fp := turns[fp] + [Budget.Write]], Settled(marks, fp, ok))
    ensures turns[fp] + [Budget.Write] == [Budget.Call(ok), Budget.Write]
    ensures forall q :: q in marks ==> Settled(marks, fp, ok)[q].notified == marks[q].notified
  {
    assert Turn(max, before[fp], [Budget.Call(ok)], marks[fp].failures);
  }

  lemma TurnBegun(max: nat, before: map<Fingerprint, nat>, turns: map<Fingerprint, seq<Budget.Event>>,
                  marks: map<Fingerprint, Mark>, fp: Fingerprint, ok: bool)
    requires InTurn(max, before, turns, marks) && fp in turns && before[fp] < max && turns[fp] == []
    ensures InTurn(max, before, turns[fp := turns[fp] + [Budget.Call(ok)]], marks)
    ensures turns[fp] + [Budget.Call(ok)] == [Budget.Call(ok)]
    ensures marks[fp].failures == before[fp]
  {
    assert Turn(max, before[fp], [], marks[fp].failures);
  }

  lemma InTurnWhenMarked(max: nat, before: map<Fingerprint, nat>, turns: map<Fingerprint, seq<Budget.Event>>,
                         marks: map<Fingerprint, Mark>, marked: map<Fingerprint, Mark>)
    requires InTurn(max, before, turns, marks) && marked.Keys == marks.Keys
    requires forall fp :: fp in marks ==> marked[fp].failures == marks[fp].failures
    ensures InTurn(max, before, turns, marked)
  {
  }

  // ----- fate, turn and answer agree

  function Answer(heard: map<Fingerprint, ScoreResult>, fp: Fingerprint): Option<ScoreResult> {
    if fp in heard then Some(heard[fp]) else None
  }

  /** A posting's fate, what was done with the scorer for it, and what the scorer said. */
  ghost predicate FateFits(max: nat, before: nat, fate: Fate, es: seq<Budget.Event>, answer: Option<ScoreResult>) {
    match fate
    case Scored => before < max && es == [Budget.Call(true), Budget.Write] && answer.Some? && answer.value.Verdicted?
    case Failed(reason) =>
      if before < max
      then (es == [Budget.Call(false), Budget.Write] || es == [Budget.Call(false)])
           && answer.Some? && answer.value.Unscored? && answer.value.reason == reason
      else es == [] && answer.None? && reason == MaxRetriesExceeded
    case Deferred => es == [] && answer.None?
    case NotAttempted =>
      if answer.None? then es == [] else es == [Budget.Call(answer.value.Verdicted?)]
  }

  /** What did not pass the pre-filter is never scored. */
  ghost predicate AllFit(max: nat, before: map<Fingerprint, nat>, fate: map<Fingerprint, Fate>,
                         turns: map<Fingerprint, seq<Budget.Event>>, heard: map<Fingerprint, ScoreResult>)
  {
    && heard.Keys <= fate.Keys <= turns.Keys == before.Keys
    && (forall fp :: fp in fate ==> FateFits(max, before[fp], fate[fp], turns[fp], Answer(heard, fp)))
    && (forall fp :: fp in turns && fp !in fate ==> turns[fp] == [])
  }

  lemma FitNext(max: nat, before: map<Fingerprint, nat>, fate: map<Fingerprint, Fate>,
                turns: map<Fingerprint, seq<Budget.Event>>, heard: map<Fingerprint, ScoreResult>,
                fp: Fingerprint, to: Fate, es: seq<Budget.Event>)
    requires AllFit(max, before, fate, turns, heard) && fp in fate
    requires FateFits(max, before[fp], to, es, Answer(heard, fp))
    ensures AllFit(max, before, fate[fp := to], turns[fp := es], heard)
  {
  }

  lemma FitWhenHeard(max: nat, before: map<Fingerprint, nat>, fate: map<Fingerprint, Fate>,
                     turns: map<Fingerprint, seq<Budget.Event>>, heard: map<Fingerprint, ScoreResult>,
                     fp: Fingerprint, answer: ScoreResult)
    requires AllFit(max, before, fate, turns, heard) && fp in fate && fate[fp] == NotAttempted
    ensures AllFit(max, before, fate, turns[fp := [Budget.Call(answer.Verdicted?)]], heard[fp := answer])
  {
  }

  lemma FirstFateFits(max: nat, before: map<Fingerprint, nat>, turns: map<Fingerprint, seq<Budget.Event>>,
                      admitted: seq<Fingerprint>, deferred: seq<Fingerprint>)
    requires before.Keys == turns.Keys && forall fp :: fp in turns ==> turns[fp] == []
    requires forall fp :: fp in admitted + deferred ==> fp in turns
    ensures AllFit(max, before, FirstFate(admitted, deferred), turns, map[])
  {
  }
}
