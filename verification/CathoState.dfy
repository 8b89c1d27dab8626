/**
 * The Catho checkpoint: what a page load does to the state, what an ingest batch does, and
 * how the state is written to and read back from its file.
 */
module CathoState {
  import opened Wrappers

  /** A JSON document; numbers are the integers JSON can carry. */
  datatype Json =
    | JNull
    | JBool(b: bool)
    | JNum(n: int)
    | JStr(s: string)
    | JArr(items: seq<Json>)
    | JObj(fields: map<string, Json>)

  datatype Payload = Payload(id: string, url: string, pageTitle: string, jobPosting: Json)

  datatype Entry =
    | Collected(payload: Payload)
    | Ingested
    | Expired
    | Retryable(failCount: int, reason: string)
    | Quarantined(failCount: int, reason: string)

  type State = map<string, Entry>

  const MAX_RETRYABLE_ATTEMPTS_BEFORE_QUARANTINE := 5

  const MAX_SAFE_INTEGER := 0x1F_FFFF_FFFF_FFFF

  // ----- classifying a page load

  datatype Url = Malformed | Url(protocol: string, hostname: string, port: string, pathname: string)

  const ALLOWED_CATHO_HOST := "www.catho.com.br"

  predicate IsAllowedCathoUrl(url: Url) {
    url.Url? && url.protocol == "https:" && url.hostname == ALLOWED_CATHO_HOST && url.port == ""
  }

  predicate IsGenericListing(url: Url) {
    url.Url? && (url.pathname == "/vagas" || url.pathname == "/vagas/")
  }

  predicate Truthy(j: Json) {
    j != JNull && j != JBool(false) && j != JNum(0) && j != JStr("")
  }

  datatype Candidate = Candidate(id: string, url: string)

  /** `jsonLd` is JNull when the page had none or it did not parse. */
  datatype Signals = Signals(httpStatus: Option<int>, finalUrl: Url, jsonLd: Json, pageTitle: string)

  datatype Outcome = PageCollected(payload: Payload) | PageExpired | PageRetryable(reason: string)

  function ClassifyPageResult(s: Signals, candidate: Candidate): Outcome {
    if s.httpStatus.None? then PageRetryable("no response")
    else if s.httpStatus.value < 200 || s.httpStatus.value >= 300 then PageRetryable("HTTP error")
    else if !IsAllowedCathoUrl(s.finalUrl) then PageRetryable("final URL host not allowed")
    else if IsGenericListing(s.finalUrl) then PageExpired
    else if !Truthy(s.jsonLd) then PageRetryable("missing or invalid JSON-LD")
    else PageCollected(Payload(candidate.id, candidate.url, s.pageTitle, s.jsonLd))
  }

  // ----- folding an outcome

  predicate NeedsPageFetch(state: State, id: string) {
    id !in state || state[id].Retryable?
  }

  function FailCount(state: State, id: string): int {
    if id in state && (state[id].Retryable? || state[id].Quarantined?) then state[id].failCount else 0
  }

  function ApplyPageOutcome(state: State, id: string, outcome: Outcome): State {
    match outcome
    case PageCollected(payload) => state[id := Collected(payload)]
    case PageExpired => state[id := Expired]
    case PageRetryable(reason) =>
      var failCount := FailCount(state, id) + 1;
      state[id := if failCount >= MAX_RETRYABLE_ATTEMPTS_BEFORE_QUARANTINE
                  then Quarantined(failCount, reason) else Retryable(failCount, reason)]
  }

  // ----- ingest and requeue

  function MarkedIngested(state: State, ids: seq<string>): State {
    map id | id in state :: if id in ids && state[id].Collected? then Ingested else state[id]
  }

  method MarkIngested(state: State, ids: seq<string>) returns (r: State)
    ensures r == MarkedIngested(state, ids)
  {
    r := state;
    var i := 0;
    while i < |ids|
      invariant 0 <= i <= |ids|
      invariant r == MarkedIngested(state, ids[..i])
    {
      assert ids[..i + 1] == ids[..i] + [ids[i]];
      if ids[i] in r && r[ids[i]].Collected? {
        r := r[ids[i] := Ingested];
      }
      i := i + 1;
    }
    assert ids[..i] == ids;
  }

  predicate Distinct(ids: seq<string>) {
    forall i, j :: 0 <= i < j < |ids| ==> ids[i] != ids[j]
  }

  /** What a requeue is about: the quarantined entries, of the ids given or of all. */
  predicate Requeueable(state: State, ids: Option<seq<string>>, id: string) {
    id in state && state[id].Quarantined? && (ids.Some? ==> id in ids.value)
  }

  /** `Object.entries` in some order, the quarantined ones. */
  method QuarantinedIds(state: State) returns (ids: seq<string>)
    ensures forall id :: id in ids <==> id in state && state[id].Quarantined?
  {
    ids := [];
    var left := state.Keys;
    while left != {}
      invariant left <= state.Keys
      invariant forall id :: id in ids <==> id in state && id !in left && state[id].Quarantined?
      decreases left
    {
      var id :| id in left;
      left := left - {id};
      if state[id].Quarantined? {
        ids := ids + [id];
      }
    }
  }

  /** Drops the quarantined entries among `ids`, or all of them, and says which ones those were. */
  method RequeueQuarantined(state: State, ids: Option<seq<string>>) returns (r: State, requeued: seq<string>)
    ensures r == map id | id in state && !Requeueable(state, ids, id) :: state[id]
    ensures forall id :: id in requeued <==> Requeueable(state, ids, id)
    ensures forall i, j :: 0 <= i < j < |requeued| ==> requeued[i] != requeued[j]
  {
    var targets: seq<string>;
    match ids {
      case Some(given) => targets := given;
      case None => targets := QuarantinedIds(state);
    }
    r, requeued := state, [];
    var i := 0;
    while i < |targets|
      invariant 0 <= i <= |targets|
      invariant r == map id | id in state && !(id in targets[..i] && state[id].Quarantined?) :: state[id]
      invariant forall id :: id in requeued <==> id in targets[..i] && id in state && state[id].Quarantined?
      invariant forall i, j :: 0 <= i < j < |requeued| ==> requeued[i] != requeued[j]
    {
      assert targets[..i + 1] == targets[..i] + [targets[i]];
      if targets[i] in r && r[targets[i]].Quarantined? {
        r := r - {targets[i]};
        requeued := requeued + [targets[i]];
      }
      i := i + 1;
    }
    assert targets[..i] == targets;
  }

  ghost function Pending(state: State): set<Payload> {
    set id | id in state && state[id].Collected? :: state[id].payload
  }

  lemma PendingAre(state: State, payloads: seq<Payload>, ids: seq<string>)
    requires forall id :: id in ids <==> id in state && state[id].Collected?
    requires |payloads| == |ids| && forall i :: 0 <= i < |ids| ==> state[ids[i]] == Collected(payloads[i])
    ensures (set p | p in payloads) == Pending(state)
  {
    forall p | p in payloads
      ensures p in Pending(state)
    {
      var i :| 0 <= i < |payloads| && payloads[i] == p;
      assert ids[i] in ids;
    }
    forall p | p in Pending(state)
      ensures p in payloads
    {
      var id :| id in state && state[id].Collected? && state[id].payload == p;
      var i :| 0 <= i < |ids| && ids[i] == id;
      assert payloads[i] == p;
    }
  }

  /** Every collected payload, once each, in some order; `ids` are the entries they stand in. */
  method CollectedPayloadsPendingIngest(state: State) returns (payloads: seq<Payload>, ghost ids: seq<string>)
    ensures Distinct(ids) && forall id :: id in ids <==> id in state && state[id].Collected?
    ensures |payloads| == |ids| && forall i :: 0 <= i < |ids| ==> state[ids[i]] == Collected(payloads[i])
    ensures (set p | p in payloads) == Pending(state)
  {
    payloads, ids := [], [];
    var left := state.Keys;
    while left != {}
      invariant left <= state.Keys
      invariant Distinct(ids) && forall id :: id in ids <==> id in state && id !in left && state[id].Collected?
      invariant |payloads| == |ids| && forall i :: 0 <= i < |ids| ==> state[ids[i]] == Collected(payloads[i])
      decreases left
    {
      var id :| id in left;
      left := left - {id};
      if state[id].Collected? {
        payloads, ids := payloads + [state[id].payload], ids + [id];
      }
    }
    PendingAre(state, payloads, ids);
  }

  // ----- the file

  function EntryFields(e: Entry): map<string, Json> {
    match e
    case Collected(p) =>
      map["state" := JStr("collected"),
          "payload" := JObj(map["id" := JStr(p.id), "url" := JStr(p.url),
                                "pageTitle" := JStr(p.pageTitle), "jobPosting" := p.jobPosting])]
    case Ingested => map["state" := JStr("ingested")]
    case Expired => map["state" := JStr("expired")]
    case Retryable(n, reason) =>
      map["state" := JStr("retryable"), "failCount" := JNum(n), "reason" := JStr(reason)]
    case Quarantined(n, reason) =>
      map["state" := JStr("quarantined"), "failCount" := JNum(n), "reason" := JStr(reason)]
  }

  function EncodeEntry(e: Entry): Json {
    JObj(EntryFields(e))
  }

  function Encode(state: State): Json {
    JObj(map["version" := JNum(2), "entries" := JObj(map id | id in state :: EncodeEntry(state[id]))])
  }

  predicate IsString(fields: map<string, Json>, name: string) {
    name in fields && fields[name].JStr?
  }

  predicate IsFailure(fields: map<string, Json>) {
    && "failCount" in fields && fields["failCount"].JNum?
    && 1 <= fields["failCount"].n <= MAX_SAFE_INTEGER
    && IsString(fields, "reason")
  }

  predicate IsPayload(j: Json) {
    && j.JObj? && IsString(j.fields, "id") && IsString(j.fields, "url") && IsString(j.fields, "pageTitle")
    && "jobPosting" in j.fields
  }

  predicate IsStateEntry(j: Json) {
    j.JObj? && "state" in j.fields &&
    (var kind := j.fields["state"];
     || kind == JStr("ingested") || kind == JStr("expired")
     || ((kind == JStr("retryable") || kind == JStr("quarantined")) && IsFailure(j.fields))
     || (kind == JStr("collected") && "payload" in j.fields && IsPayload(j.fields["payload"])))
  }

  function DecodeEntry(j: Json): Entry
    requires IsStateEntry(j)
  {
    var kind := j.fields["state"];
    if kind == JStr("ingested") then Ingested
    else if kind == JStr("expired") then Expired
    else if kind == JStr("retryable") then Retryable(j.fields["failCount"].n, j.fields["reason"].s)
    else if kind == JStr("quarantined") then Quarantined(j.fields["failCount"].n, j.fields["reason"].s)
    else
      var p := j.fields["payload"].fields;
      Collected(Payload(p["id"].s, p["url"].s, p["pageTitle"].s, p["jobPosting"]))
  }

  /** None: the file does not exist or does not parse. Anything unexpected reads as empty. */
  function LoadState(file: Option<Json>): State {
    if file.None? || !file.value.JObj? then map[]
    else
      var raw := file.value.fields;
      if "version" !in raw || raw["version"] != JNum(2) then map[]
      else if "entries" !in raw || !raw["entries"].JObj? then map[]
      else
        var entries := raw["entries"].fields;
        if exists id :: id in entries && !IsStateEntry(entries[id]) then map[]
        else map id | id in entries :: DecodeEntry(entries[id])
  }

  /** Only a document of version 2 with nothing but valid entries is read as anything but empty. */
  lemma LoadsExactly(file: Option<Json>)
    ensures LoadState(file) != map[] ==>
              && file.Some? && file.value.JObj?
              && "version" in file.value.fields && file.value.fields["version"] == JNum(2)
              && "entries" in file.value.fields && file.value.fields["entries"].JObj?
              && var entries := file.value.fields["entries"].fields;
                 LoadState(file).Keys == entries.Keys && forall id :: id in entries ==> IsStateEntry(entries[id])
  {
  }

  /** What the loader's validator can check of an entry. */
  predicate Storable(e: Entry) {
    e.Retryable? || e.Quarantined? ==> 1 <= e.failCount <= MAX_SAFE_INTEGER
  }

  lemma EntryRoundTrip(e: Entry)
    ensures IsStateEntry(EncodeEntry(e)) <==> Storable(e)
    ensures IsStateEntry(EncodeEntry(e)) ==> DecodeEntry(EncodeEntry(e)) == e
  {
  }

  function EncodedEntries(state: State): map<string, Json> {
    map id | id in state :: EncodeEntry(state[id])
  }

  lemma LoadEncoded(state: State)
    ensures var entries := EncodedEntries(state);
            LoadState(Some(Encode(state)))
            == if exists id :: id in entries && !IsStateEntry(entries[id]) then map[]
               else map id | id in entries :: DecodeEntry(entries[id])
  {
    hide IsStateEntry, DecodeEntry, EncodeEntry;
    var raw := Encode(state).fields;
    assert raw["version"] == JNum(2);
    assert raw["entries"] == JObj(EncodedEntries(state));
  }

  /** Saving then loading is the identity exactly on states the validator accepts throughout. */
  lemma SaveThenLoad(state: State)
    ensures LoadState(Some(Encode(state))) == state <==> forall id :: id in state ==> Storable(state[id])
  {
    hide IsStateEntry, DecodeEntry, Storable, EncodeEntry, Encode, LoadState;
    LoadEncoded(state);
    var entries := EncodedEntries(state);
    forall id | id in state
      ensures IsStateEntry(entries[id]) <==> Storable(state[id])
      ensures IsStateEntry(entries[id]) ==> DecodeEntry(entries[id]) == state[id]
    {
      EntryRoundTrip(state[id]);
    }
    if id :| id in state && !Storable(state[id]) {
      assert !IsStateEntry(entries[id]);
    }
  }

  // ----- what reachable states look like, and how they may evolve

  predicate Regular(id: string, e: Entry) {
    match e
    case Collected(p) => p.id == id
    case Retryable(n, _) => 1 <= n < MAX_RETRYABLE_ATTEMPTS_BEFORE_QUARANTINE
    case Quarantined(n, _) => n == MAX_RETRYABLE_ATTEMPTS_BEFORE_QUARANTINE
    case _ => true
  }

  predicate WellFormed(state: State) {
    forall id :: id in state ==> Regular(id, state[id])
  }

  lemma WellFormedSurvivesTheFile(state: State)
    requires WellFormed(state)
    ensures LoadState(Some(Encode(state))) == state
  {
    SaveThenLoad(state);
  }

  /**
   * From `before` to `after`, given the payloads that batches answered 2xx contained: a
   * collected payload is still pending or was in such a batch, ingested and expired never
   * regress, and nothing becomes ingested without such a batch.
   */
  ghost predicate Evolves(before: State, after: State, confirmed: set<Payload>) {
    && (forall id :: id in before && before[id].Collected? ==>
                       && id in after
                       && (|| after[id] == before[id]
                           || (after[id] == Ingested && before[id].payload in confirmed)))
    && (forall id :: id in before && (before[id] == Ingested || before[id] == Expired) ==>
                       id in after && after[id] == before[id])
    && (forall id :: id in after && after[id] == Ingested ==>
                       (id in before && before[id] == Ingested) || (exists p :: p in confirmed && p.id == id))
  }

  lemma EvolvesReflexive(a: State)
    ensures Evolves(a, a, {})
  {
  }

  lemma EvolvesFurther(a: State, b: State, some: set<Payload>, more: set<Payload>)
    requires Evolves(a, b, some) && some <= more
    ensures Evolves(a, b, more)
  {
  }

  lemma EvolvesTransitive(a: State, b: State, c: State, ab: set<Payload>, bc: set<Payload>)
    requires Evolves(a, b, ab) && Evolves(b, c, bc)
    ensures Evolves(a, c, ab + bc)
  {
  }

  lemma FetchedOutcomeEvolves(state: State, id: string, outcome: Outcome)
    requires NeedsPageFetch(state, id)
    ensures Evolves(state, ApplyPageOutcome(state, id, outcome), {})
  {
  }

  lemma PageOutcomeEvolves(state: State, candidate: Candidate, signals: Signals)
    requires WellFormed(state) && NeedsPageFetch(state, candidate.id)
    ensures var after := ApplyPageOutcome(state, candidate.id, ClassifyPageResult(signals, candidate));
            WellFormed(after) && Evolves(state, after, {})
  {
  }

  lemma MarkIngestedEvolves(state: State, batch: seq<Payload>, ids: seq<string>)
    requires WellFormed(state)
    requires |ids| == |batch| && forall i :: 0 <= i < |ids| ==> ids[i] == batch[i].id
    requires forall id :: id in state && state[id].Collected? ==> state[id].payload in batch
    ensures WellFormed(MarkedIngested(state, ids))
    ensures Evolves(state, MarkedIngested(state, ids), set p | p in batch)
  {
  }

  // ----- why candidate ids have to be distinct

  function Fold(state: State, ids: seq<string>, outcomes: seq<Outcome>): State
    requires |ids| == |outcomes|
  {
    if ids == [] then state
    else
      var n := |ids| - 1;
      ApplyPageOutcome(Fold(state, ids[..n], outcomes[..n]), ids[n], outcomes[n])
  }

  lemma {:induction false} FoldTouchesOnlyIds(state: State, ids: seq<string>, outcomes: seq<Outcome>, id: string)
    requires |ids| == |outcomes| && id !in ids
    ensures id in Fold(state, ids, outcomes) <==> id in state
    ensures id in state ==> Fold(state, ids, outcomes)[id] == state[id]
  {
    if ids != [] {
      var n := |ids| - 1;
      FoldTouchesOnlyIds(state, ids[..n], outcomes[..n], id);
    }
  }

  lemma {:induction false} DistinctFoldEvolves(state: State, ids: seq<string>, outcomes: seq<Outcome>, m: nat)
    requires |ids| == |outcomes| && m <= |ids| && Distinct(ids)
    requires forall i :: 0 <= i < |ids| ==> NeedsPageFetch(state, ids[i])
    ensures Evolves(Fold(state, ids[..m], outcomes[..m]), Fold(state, ids, outcomes), {})
    decreases |ids|
  {
    hide Evolves, ApplyPageOutcome;
    if m == |ids| {
      assert ids[..m] == ids && outcomes[..m] == outcomes;
      EvolvesReflexive(Fold(state, ids, outcomes));
    } else {
      var n := |ids| - 1;
      var mid := Fold(state, ids[..n], outcomes[..n]);
      assert ids[..n][..m] == ids[..m] && outcomes[..n][..m] == outcomes[..m];
      DistinctFoldEvolves(state, ids[..n], outcomes[..n], m);
      FoldTouchesOnlyIds(state, ids[..n], outcomes[..n], ids[n]);
      FetchedOutcomeEvolves(mid, ids[n], outcomes[n]);
      var after := ApplyPageOutcome(mid, ids[n], outcomes[n]);
      assert after == Fold(state, ids, outcomes);
      var none: set<Payload> := {};
      EvolvesTransitive(Fold(state, ids[..m], outcomes[..m]), mid, after, none, none);
      assert none + none == none;
    }
  }

  lemma {:induction false} RetriedStaysFailed(state: State, ids: seq<string>, outcomes: seq<Outcome>, j: nat)
    requires |ids| == |outcomes| && j < |ids|
    requires forall k :: j <= k < |ids| ==> outcomes[k].PageRetryable?
    ensures ids[j] in Fold(state, ids, outcomes) && !Fold(state, ids, outcomes)[ids[j]].Collected?
    ensures !Fold(state, ids, outcomes)[ids[j]].Ingested?
    decreases |ids|
  {
    var n := |ids| - 1;
    if j < n {
      RetriedStaysFailed(state, ids[..n], outcomes[..n], j);
    }
  }

  /** Ids that repeat: the first load collects, the second one fails, and the payload is gone. */
  lemma {:induction false} RepeatedIdLosesAPayload(state: State, ids: seq<string>, i: nat, j: nat)
    returns (outcomes: seq<Outcome>)
    requires i < j < |ids| && ids[i] == ids[j]
    ensures |outcomes| == |ids|
    ensures !Evolves(Fold(state, ids[..i + 1], outcomes[..i + 1]), Fold(state, ids, outcomes), {})
  {
    var payload := Payload(ids[i], "", "", JNull);
    outcomes := seq(|ids|, k requires 0 <= k < |ids| => if k == i then PageCollected(payload) else PageRetryable(""));
    assert ids[..i + 1][..i] == ids[..i] && outcomes[..i + 1][..i] == outcomes[..i];
    assert Fold(state, ids[..i + 1], outcomes[..i + 1])[ids[i]] == Collected(payload);
    RetriedStaysFailed(state, ids, outcomes, j);
    assert ids[..|ids|] == ids && outcomes[..|ids|] == outcomes;
  }

  /**
   * Checkpointed payloads survive the rest of a run, whatever the pages answer, exactly when
   * no candidate id occurs twice among those the run fetches.
   */
  lemma DistinctIdsExactlyNeeded(state: State, ids: seq<string>)
    requires forall i :: 0 <= i < |ids| ==> NeedsPageFetch(state, ids[i])
    ensures Distinct(ids) <==>
            (forall outcomes: seq<Outcome>, m: nat :: |outcomes| == |ids| && m <= |ids| ==>
                Evolves(Fold(state, ids[..m], outcomes[..m]), Fold(state, ids, outcomes), {}))
  {
    if Distinct(ids) {
      forall outcomes: seq<Outcome>, m: nat | |outcomes| == |ids| && m <= |ids|
        ensures Evolves(Fold(state, ids[..m], outcomes[..m]), Fold(state, ids, outcomes), {})
      {
        DistinctFoldEvolves(state, ids, outcomes, m);
      }
    } else {
      var i, j :| 0 <= i < j < |ids| && ids[i] == ids[j];
      var outcomes := RepeatedIdLosesAPayload(state, ids, i, j);
      var m: nat := i + 1;
      assert !Evolves(Fold(state, ids[..m], outcomes[..m]), Fold(state, ids, outcomes), {});
    }
  }

  /** Distinct ids: what a run leaves of a posting is what its one load leaves. */
  lemma {:induction false} EachLoadedOnce(state: State, ids: seq<string>, outcomes: seq<Outcome>, i: nat)
    requires |ids| == |outcomes| && Distinct(ids) && i < |ids|
    ensures ids[i] in Fold(state, ids, outcomes)
    ensures Fold(state, ids, outcomes)[ids[i]] == ApplyPageOutcome(state, ids[i], outcomes[i])[ids[i]]
    decreases |ids|
  {
    var n := |ids| - 1;
    if i == n {
      FoldTouchesOnlyIds(state, ids[..n], outcomes[..n], ids[n]);
    } else {
      EachLoadedOnce(state, ids[..n], outcomes[..n], i);
    }
  }

  // ----- towards quarantine

  /** The same id, loaded `n` times. */
  function Loads(id: string, n: nat): (ids: seq<string>)
    ensures |ids| == n && forall i :: 0 <= i < n ==> ids[i] == id
  {
    seq(n, _ => id)
  }

  /**
   * An unknown posting whose loads all fail is retried four times, its failures counted, and
   * given up for good at the fifth.
   */
  lemma {:induction false} FailedLoadsQuarantine(state: State, id: string, outcomes: seq<Outcome>)
    requires id !in state && forall i :: 0 <= i < |outcomes| ==> outcomes[i].PageRetryable?
    requires 1 <= |outcomes| <= 5
    ensures var n := |outcomes|;
            var reason := outcomes[n - 1].reason;
            Fold(state, Loads(id, n), outcomes)
            == state[id := if n < 5 then Retryable(n, reason) else Quarantined(5, reason)]
    ensures NeedsPageFetch(Fold(state, Loads(id, |outcomes|), outcomes), id) <==> |outcomes| < 5
  {
    var n := |outcomes| - 1;
    assert Loads(id, n + 1)[..n] == Loads(id, n);
    if n == 0 {
      assert outcomes[..0] == [] && Loads(id, 0) == [];
    } else {
      FailedLoadsQuarantine(state, id, outcomes[..n]);
    }
  }

  /** What one load leaves, by what was known of the posting before. */
  lemma OneLoad(state: State, id: string, outcome: Outcome)
    requires NeedsPageFetch(state, id) && (id in state ==> Regular(id, state[id]))
    ensures var failures := if id in state then state[id].failCount else 0;
            ApplyPageOutcome(state, id, outcome)
            == state[id := match outcome
                           case PageCollected(payload) => Collected(payload)
                           case PageExpired => Expired
                           case PageRetryable(reason) =>
                             if failures < 4 then Retryable(failures + 1, reason) else Quarantined(5, reason)]
  {
  }

  /** Only what has no settled outcome is loaded: the unknown, and what has failed below the bound. */
  lemma FetchedExactly(state: State, id: string)
    requires WellFormed(state)
    ensures NeedsPageFetch(state, id) <==>
            (id in state ==> state[id].Retryable? && 1 <= state[id].failCount < 5)
  {
  }

  // ----- classification, both ways

  /**
   * A page counts as expired only on the one confirmed pattern, as collected only with data,
   * and anything that did not arrive from the board itself is to be tried again.
   */
  lemma ClassifiedExactly(s: Signals, candidate: Candidate)
    ensures var o := ClassifyPageResult(s, candidate);
            var arrived := && s.httpStatus.Some? && 200 <= s.httpStatus.value < 300 && s.finalUrl.Url?
                           && s.finalUrl.protocol == "https:" && s.finalUrl.hostname == "www.catho.com.br"
                           && s.finalUrl.port == "";
            var listing := arrived && (s.finalUrl.pathname == "/vagas" || s.finalUrl.pathname == "/vagas/");
            var data := s.jsonLd != JNull && s.jsonLd != JBool(false) && s.jsonLd != JNum(0) && s.jsonLd != JStr("");
            && (o.PageExpired? <==> listing)
            && (o.PageCollected? <==> arrived && !listing && data)
            && (o.PageCollected? ==> o.payload == Payload(candidate.id, candidate.url, s.pageTitle, s.jsonLd))
  {
  }
}
