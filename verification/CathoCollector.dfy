/**
 * One Catho collection run, from loading the checkpoint to acknowledging the ingest, stopped
 * at any point by a crash, an exception or a lost lock, and any sequence of such runs.
 */
module CathoCollector {
  import opened Wrappers
  import opened CathoState

  datatype Ending = NothingPending | Acknowledged | NotAcknowledged | Stopped

  /** The ingest endpoint, with the payloads of the batches it accepted, its answer seen or not. */
  class IngestApi {
    ghost var accepted: set<Payload>

    constructor ()
      ensures accepted == {}
    {
      accepted := {};
    }

    /** True only for a 2xx answer that arrived. */
    method Post(batch: seq<Payload>) returns (ok: bool)
      modifies this
      ensures accepted == old(accepted) || accepted == old(accepted) + set p | p in batch
      ensures ok ==> accepted == old(accepted) + set p | p in batch
    {
      var arrives: bool, answered: bool := *, *;
      if arrives {
        accepted := accepted + set p | p in batch;
      }
      ok := arrives && answered;
    }
  }

  class Checkpoint {
    const api: IngestApi
    /** The state file; None while it does not exist. */
    var file: Option<Json>

    ghost function Saved(): State
      reads this
    {
      LoadState(file)
    }

    ghost predicate Valid()
      reads this
    {
      WellFormed(Saved())
    }

    constructor (api: IngestApi)
      ensures Valid() && Saved() == map[] && this.api == api
    {
      this.api, file := api, None;
    }

    /** Write to a temporary file, then rename over the real one: all or nothing. */
    method SaveStateAtomic(state: State)
      requires WellFormed(state)
      modifies this`file
      ensures Valid() && Saved() == state
    {
      file := Some(Encode(state));
      WellFormedSurvivesTheFile(state);
    }

    /** Candidates that need a page load, in sitemap order. */
    static function Eligible(state: State, candidates: seq<Candidate>): seq<Candidate> {
      if candidates == [] then []
      else
        var last := candidates[|candidates| - 1];
        Eligible(state, candidates[..|candidates| - 1]) + if NeedsPageFetch(state, last.id) then [last] else []
    }

    static lemma {:induction false} EligibleExactly(state: State, candidates: seq<Candidate>, c: Candidate)
      ensures c in Eligible(state, candidates) <==> c in candidates && NeedsPageFetch(state, c.id)
    {
      if candidates != [] {
        EligibleExactly(state, candidates[..|candidates| - 1], c);
        assert candidates == candidates[..|candidates| - 1] + [candidates[|candidates| - 1]];
      }
    }

    /** The order is the sitemap's: what is earlier in one is earlier in the other. */
    static lemma {:induction false} EligibleInOrder(state: State, some: seq<Candidate>, more: seq<Candidate>)
      ensures Eligible(state, some + more) == Eligible(state, some) + Eligible(state, more)
    {
      if more == [] {
        assert some + more == some;
      } else {
        var front := more[..|more| - 1];
        EligibleInOrder(state, some, front);
        assert (some + more)[..|some + more| - 1] == some + front;
      }
    }

    /** The first eligible candidates, as many as the page budget allows. */
    static function Taken(state: State, candidates: seq<Candidate>, maxPages: nat): seq<Candidate> {
      var eligible := Eligible(state, candidates);
      if |eligible| > maxPages then eligible[..maxPages] else eligible
    }

    static predicate DistinctIds(candidates: seq<Candidate>) {
      forall i, j :: 0 <= i < j < |candidates| ==> candidates[i].id != candidates[j].id
    }

    static lemma {:induction false} EligibleDistinct(state: State, candidates: seq<Candidate>)
      requires DistinctIds(candidates)
      ensures DistinctIds(Eligible(state, candidates))
    {
      if candidates != [] {
        var front, last := candidates[..|candidates| - 1], candidates[|candidates| - 1];
        EligibleDistinct(state, front);
        forall c | c in Eligible(state, front)
          ensures c.id != last.id
        {
          EligibleExactly(state, front, c);
        }
      }
    }

    static ghost predicate Untouched(start: State, state: State, c: Candidate) {
      (c.id in state <==> c.id in start) && (c.id in start ==> state[c.id] == start[c.id])
    }

    static ghost function Ids(candidates: seq<Candidate>): seq<string> {
      seq(|candidates|, i requires 0 <= i < |candidates| => candidates[i].id)
    }

    static ghost predicate Answers(outcome: Outcome, c: Candidate) {
      exists signals :: outcome == ClassifyPageResult(signals, c)
    }

    /** Each outcome is what some page answered for its candidate. */
    static ghost predicate Classified(done: seq<Candidate>, outcomes: seq<Outcome>) {
      |outcomes| == |done| && forall i :: 0 <= i < |done| ==> Answers(outcomes[i], done[i])
    }

    /**
     * What the page loop keeps: memory is the start with all outcomes so far folded in, the
     * file is that with the first `saved` of them, and neither has regressed.
     */
    ghost predicate OnTrack(start: State, state: State, done: seq<Candidate>, outcomes: seq<Outcome>, saved: nat)
      reads this
    {
      && Valid() && WellFormed(state) && Classified(done, outcomes) && saved <= |done|
      && Evolves(start, Saved(), {}) && Evolves(start, state, {})
      && state == Fold(start, Ids(done), outcomes)
      && Saved() == Fold(start, Ids(done)[..saved], outcomes[..saved])
    }

    static lemma ClassifiedOnce(done: seq<Candidate>, outcomes: seq<Outcome>, c: Candidate, signals: Signals)
      requires Classified(done, outcomes)
      ensures Classified(done + [c], outcomes + [ClassifyPageResult(signals, c)])
    {
      assert Answers(ClassifyPageResult(signals, c), c);
    }

    static lemma FoldedOnce(start: State, done: seq<Candidate>, outcomes: seq<Outcome>, saved: nat, c: Candidate,
                            o: Outcome)
      requires |done| == |outcomes| && saved <= |done|
      ensures Fold(start, Ids(done + [c]), outcomes + [o])
           == ApplyPageOutcome(Fold(start, Ids(done), outcomes), c.id, o)
      ensures Ids(done + [c])[..saved] == Ids(done)[..saved] && (outcomes + [o])[..saved] == outcomes[..saved]
    {
      assert Ids(done + [c])[..|done|] == Ids(done);
      assert (outcomes + [o])[..|done|] == outcomes;
    }

    /** One page: its signals are classified and folded into the state. */
    method FoldPage(ghost start: State, state: State, ghost done: seq<Candidate>, ghost outcomes: seq<Outcome>,
                    ghost saved: nat, candidate: Candidate, signals: Signals)
      returns (after: State, ghost outcome: Outcome)
      requires OnTrack(start, state, done, outcomes, saved) && NeedsPageFetch(state, candidate.id)
      ensures after == ApplyPageOutcome(state, candidate.id, outcome)
      ensures after.Keys == state.Keys + {candidate.id}
      ensures OnTrack(start, after, done + [candidate], outcomes + [outcome], saved)
    {
      hide Evolves, LoadState, Fold;
      var o := ClassifyPageResult(signals, candidate);
      outcome := o;
      after := ApplyPageOutcome(state, candidate.id, o);
      PageOutcomeEvolves(state, candidate, signals);
      ghost var none: set<Payload> := {};
      EvolvesTransitive(start, state, after, none, none);
      assert none + none == none;
      FoldedOnce(start, done, outcomes, saved, candidate, o);
      ClassifiedOnce(done, outcomes, candidate, signals);
    }

    method SaveOnTrack(ghost start: State, state: State, ghost done: seq<Candidate>, ghost outcomes: seq<Outcome>,
                       ghost saved: nat)
      requires OnTrack(start, state, done, outcomes, saved)
      modifies this`file
      ensures OnTrack(start, state, done, outcomes, |done|) && Saved() == state
    {
      assert Ids(done)[..|done|] == Ids(done) && outcomes[..|done|] == outcomes;
      SaveStateAtomic(state);
    }

    lemma NothingDone(start: State)
      requires Valid() && Saved() == start
      ensures OnTrack(start, start, [], [], 0)
    {
      EvolvesReflexive(start);
    }

    static lemma MulMonotone(n: nat, x: int, y: int)
      requires x <= y
      ensures n * x <= n * y
    {
    }

    static lemma DivUnique(a: nat, n: nat, q: nat, r: nat)
      requires r < n && a == n * q + r
      ensures a % n == r
    {
      if a / n < q {
        MulMonotone(n, a / n + 1, q);
      } else if a / n > q {
        MulMonotone(n, q + 1, a / n);
      }
    }

    static lemma ModStep(i: nat, n: nat)
      requires n > 0
      ensures (i + 1) % n == if i % n + 1 == n then 0 else i % n + 1
    {
      if i % n + 1 == n {
        DivUnique(i + 1, n, i / n + 1, 0);
      } else {
        DivUnique(i + 1, n, i / n, i % n + 1);
      }
    }

    static lemma NextUntouched(start: State, state: State, toFetch: seq<Candidate>, i: nat, outcome: Outcome)
      requires i < |toFetch| && DistinctIds(toFetch)
      requires forall j :: i <= j < |toFetch| ==> Untouched(start, state, toFetch[j])
      ensures forall j :: i + 1 <= j < |toFetch| ==>
                            Untouched(start, ApplyPageOutcome(state, toFetch[i].id, outcome), toFetch[j])
    {
    }

    /**
     * The page loop, with its checkpoint every `checkpointEvery` pages: the pages `done`, what
     * they answered, and how many of those answers the file has.
     */
    method FetchPages(start: State, toFetch: seq<Candidate>, checkpointEvery: nat, faulty: bool)
      returns (state: State, stopped: bool, ghost done: seq<Candidate>, ghost outcomes: seq<Outcome>, ghost saved: nat)
      requires Valid() && Saved() == start && DistinctIds(toFetch) && checkpointEvery > 0
      requires forall c :: c in toFetch ==> NeedsPageFetch(start, c.id)
      modifies this`file
      ensures OnTrack(start, state, done, outcomes, saved) && |done| <= saved + checkpointEvery
      ensures done <= toFetch
      ensures stopped ==> faulty
      ensures !stopped ==> done == toFetch
    {
      hide OnTrack, Valid, Saved, ApplyPageOutcome, ClassifyPageResult;
      state, stopped, done, outcomes, saved := start, false, [], [], 0;
      NothingDone(start);
      var i := 0;
      while i < |toFetch|
        invariant 0 <= i <= |toFetch| && done == toFetch[..i]
        invariant OnTrack(start, state, done, outcomes, saved)
        invariant i - saved == i % checkpointEvery
        invariant forall j :: i <= j < |toFetch| ==> Untouched(start, state, toFetch[j])
      {
        if {
          case faulty => return state, true, done, outcomes, saved;
          case true =>
        }
        var candidate := toFetch[i];
        var signals: Signals := *;
        if {
          case faulty => return state, true, done, outcomes, saved;
          case true =>
        }
        assert candidate in toFetch && Untouched(start, state, candidate);
        ghost var outcome;
        ghost var was := state;
        state, outcome := FoldPage(start, state, done, outcomes, saved, candidate, signals);
        NextUntouched(start, was, toFetch, i, outcome);
        done, outcomes := done + [candidate], outcomes + [outcome];
        ModStep(i, checkpointEvery);
        if (i + 1) % checkpointEvery == 0 {
          if {
            case faulty => return state, true, done, outcomes, saved;
            case true =>
          }
          SaveOnTrack(start, state, done, outcomes, saved);
          saved := |done|;
        }
        i := i + 1;
      }
      if {
        case faulty => return state, true, done, outcomes, saved;
        case true =>
      }
    }

    /** Every collected payload of a state counts as ingested. */
    static ghost function AllIngested(state: State): State {
      map id | id in state :: if state[id].Collected? then Ingested else state[id]
    }

    /** What the batch sent from `state` can have added at the API. */
    static ghost predicate SentFrom(state: State, before: set<Payload>, after: set<Payload>, ending: Ending) {
      && (after == before || after == before + Pending(state))
      && (ending == Acknowledged ==> after == before + Pending(state))
      && (ending == NothingPending ==> Pending(state) == {})
    }

    static lemma AllMarked(state: State, ids: seq<string>)
      requires forall id :: id in state && state[id].Collected? ==> id in ids
      ensures MarkedIngested(state, ids) == AllIngested(state)
    {
    }

    static lemma PendingIds(state: State, pending: seq<Payload>, standing: seq<string>, ids: seq<string>)
      requires WellFormed(state)
      requires forall id :: id in standing <==> id in state && state[id].Collected?
      requires |pending| == |standing|
      requires forall i :: 0 <= i < |standing| ==> state[standing[i]] == Collected(pending[i])
      requires |ids| == |pending| && forall i :: 0 <= i < |ids| ==> ids[i] == pending[i].id
      ensures ids == standing
      ensures forall id :: id in state && state[id].Collected? ==> state[id].payload in pending && id in ids
    {
      forall i | 0 <= i < |ids|
        ensures ids[i] == standing[i]
      {
        assert standing[i] in standing;
      }
      forall id | id in state && state[id].Collected?
        ensures state[id].payload in pending
      {
        var i :| 0 <= i < |standing| && standing[i] == id;
        assert pending[i] == state[id].payload;
      }
    }

    /** Sends what is pending and, on a 2xx answer, marks it ingested. */
    method Ingest(ghost before: State, state: State, truncated: bool, faulty: bool) returns (ending: Ending)
      requires Valid() && Saved() == state && WellFormed(state) && Evolves(before, state, api.accepted)
      modifies this, api
      ensures Valid() && Evolves(before, Saved(), api.accepted)
      ensures Saved() == if ending == Acknowledged then AllIngested(state) else state
      ensures SentFrom(state, old(api.accepted), api.accepted, ending)
      ensures ending == NothingPending <==> Pending(state) == {} && !truncated
      ensures ending == Stopped ==> faulty
    {
      hide Evolves, LoadState, MarkedIngested, Pending;
      ghost var standing;
      var pending;
      pending, standing := CollectedPayloadsPendingIngest(state);
      ghost var payloads := set p | p in pending;
      if |pending| > 0 {
        assert pending[0] in payloads;
      }
      if |pending| == 0 && !truncated {
        assert (set p | p in pending) == {};
        return NothingPending;
      }
      if {
        case faulty => return Stopped;
        case true =>
      }
      var ok := api.Post(pending);
      EvolvesFurther(before, state, old(api.accepted), api.accepted);
      if {
        case faulty => return Stopped;
        case true =>
      }
      if !ok {
        return NotAcknowledged;
      }
      var ids := seq(|pending|, i requires 0 <= i < |pending| => pending[i].id);
      PendingIds(state, pending, standing, ids);
      ghost var batch := set p | p in pending;
      MarkIngestedEvolves(state, pending, ids);
      EvolvesTransitive(before, state, MarkedIngested(state, ids), api.accepted, batch);
      assert api.accepted + batch == api.accepted;
      AllMarked(state, ids);
      var marked := MarkIngested(state, ids);
      SaveStateAtomic(marked);
      return Acknowledged;
    }

    /**
     * One run. It opens pages of the first eligible candidates, in order, and only a fault
     * stops it short of all that its budget allows. However it ends, the file is the one
     * before with all but the last few of their answers folded in, at most `checkpointEvery`
     * missing, and marked ingested exactly if the batch was acknowledged.
     */
    method RunOnce(candidates: seq<Candidate>, maxPages: nat, checkpointEvery: nat, faulty: bool)
      returns (ending: Ending, ghost done: seq<Candidate>, ghost outcomes: seq<Outcome>, ghost saved: nat)
      requires Valid() && DistinctIds(candidates) && checkpointEvery > 0
      modifies this, api
      ensures Valid() && Evolves(old(Saved()), Saved(), api.accepted)
      ensures done <= Taken(old(Saved()), candidates, maxPages) && Classified(done, outcomes)
      ensures saved <= |done| <= saved + checkpointEvery
      ensures ending == Stopped ==> faulty
      ensures ending != Stopped ==> done == Taken(old(Saved()), candidates, maxPages) && saved == |done|
      ensures var reached := Fold(old(Saved()), Ids(done)[..saved], outcomes[..saved]);
              && Saved() == (if ending == Acknowledged then AllIngested(reached) else reached)
              && SentFrom(reached, old(api.accepted), api.accepted, ending)
              && (ending != Stopped ==>
                    (ending == NothingPending <==>
                     Pending(reached) == {} && |Eligible(old(Saved()), candidates)| <= maxPages))
    {
      hide Evolves, LoadState, MarkedIngested;
      ghost var before := Saved();
      EvolvesReflexive(before);
      done, outcomes, saved := [], [], 0;
      var state := LoadState(file);
      var eligible := Eligible(state, candidates);
      EligibleDistinct(state, candidates);
      forall c | c in eligible
        ensures NeedsPageFetch(state, c.id)
      {
        EligibleExactly(state, candidates, c);
      }
      var toFetch := if |eligible| > maxPages then eligible[..maxPages] else eligible;
      var truncated := |eligible| > maxPages;
      if |toFetch| > 0 {
        var stopped: bool;
        state, stopped, done, outcomes, saved := FetchPages(state, toFetch, checkpointEvery, faulty);
        EvolvesFurther(before, Saved(), {}, api.accepted);
        if stopped {
          return Stopped, done, outcomes, saved;
        }
        EvolvesFurther(before, state, {}, api.accepted);
        SaveOnTrack(before, state, done, outcomes, saved);
        saved := |done|;
      } else {
        EvolvesFurther(before, before, {}, api.accepted);
      }
      ending := Ingest(before, state, truncated, faulty);
    }

    /** `requeue`: forgets quarantined entries, those named or all, in one atomic save. */
    method Requeue(ids: Option<seq<string>>)
      requires Valid()
      modifies this`file
      ensures Valid() && Evolves(old(Saved()), Saved(), api.accepted)
      ensures Saved() == map id | id in old(Saved()) && !Requeueable(old(Saved()), ids, id) :: old(Saved())[id]
    {
      var state := LoadState(file);
      var next, requeued := RequeueQuarantined(state, ids);
      if |requeued| == 0 {
        assert forall id :: Requeueable(state, ids, id) ==> id in requeued;
        assert next == state;
        return;
      }
      SaveStateAtomic(next);
    }

    /** Any sequence of runs and requeues, each run stopped wherever it is. */
    method Campaign(runs: nat, checkpointEvery: nat)
      requires Valid() && checkpointEvery > 0
      modifies this, api
      ensures Valid() && old(api.accepted) <= api.accepted
      ensures Evolves(old(Saved()), Saved(), api.accepted)
    {
      ghost var before := Saved();
      var i := 0;
      assert Evolves(before, Saved(), api.accepted);
      while i < runs
        invariant Valid() && old(api.accepted) <= api.accepted && Evolves(before, Saved(), api.accepted)
      {
        ghost var mid, known := Saved(), api.accepted;
        if * {
          var candidates: seq<Candidate>, maxPages: nat, faulty: bool := *, *, *;
          if DistinctIds(candidates) {
            var ending, done, outcomes, saved := RunOnce(candidates, maxPages, checkpointEvery, faulty);
          }
        } else {
          var ids: Option<seq<string>> := *;
          Requeue(ids);
        }
        EvolvesTransitive(before, mid, Saved(), known, api.accepted);
        assert known + api.accepted == api.accepted;
        i := i + 1;
      }
    }
  }
}
