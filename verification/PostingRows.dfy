/** Rows of the `postings` table and what each statement of PostingsRepository does to them. */
module PostingRows {
  import opened Wrappers

  type Fingerprint = string
  type RunId = nat

  /** What one sighting of a posting states. */
  datatype Posting = Posting(
    source: string,
    sourceId: string,
    company: string,
    title: string,
    city: Option<string>,
    workMode: string,
    seniority: Option<string>,
    experienceYears: Option<int>,
    applicationDeadline: Option<int>,
    publishedAt: Option<int>,
    sourceUrl: Option<string>,
    description: Option<string>,
    country: Option<string>,
    firstSeenAt: int,
    lastSeenAt: int,
    rawPayload: string)

  datatype Row = Row(
    posting: Posting,
    duplicateOf: Option<Fingerprint>,
    notifiedAt: Option<int>,
    discardedAt: Option<int>,
    claimedAt: Option<int>,
    claimRunId: Option<RunId>,
    scoreFailureCount: nat,
    lastScoreFailedAt: Option<int>)

  type Table = map<Fingerprint, Row>

  // ----- claims

  /** Neither a duplicate, nor already notified, nor discarded by hand. */
  predicate Active(row: Row) {
    row.duplicateOf == None && row.notifiedAt == None && row.discardedAt == None
  }

  predicate Claimable(row: Row, now: int, staleMs: int) {
    Active(row) && (row.claimedAt == None || row.claimedAt.value < now - staleMs)
  }

  function ClaimedBy(table: Table, now: int, staleMs: int): set<Fingerprint> {
    set fp | fp in table && Claimable(table[fp], now, staleMs)
  }

  function WithClaims(table: Table, run: RunId, now: int, staleMs: int): Table {
    map fp | fp in table ::
      if Claimable(table[fp], now, staleMs)
      then table[fp].(claimedAt := Some(now), claimRunId := Some(run))
      else table[fp]
  }

  predicate Unresolved(row: Row, run: RunId) {
    row.claimRunId == Some(run) && row.notifiedAt == None
  }

  function WithReleases(table: Table, run: RunId): Table {
    map fp | fp in table ::
      if Unresolved(table[fp], run)
      then table[fp].(claimedAt := None, claimRunId := None)
      else table[fp]
  }

  function WithNotified(table: Table, fps: set<Fingerprint>, at: int): Table {
    map fp | fp in table :: if fp in fps then table[fp].(notifiedAt := Some(at)) else table[fp]
  }

  // ----- one row

  function WithFailure(row: Row, at: int): Row {
    row.(scoreFailureCount := row.scoreFailureCount + 1, lastScoreFailedAt := Some(at))
  }

  function WithoutFailures(row: Row): Row {
    row.(scoreFailureCount := 0, lastScoreFailedAt := None)
  }

  function Rescored(row: Row): Row {
    row.(notifiedAt := None, scoreFailureCount := 0, lastScoreFailedAt := None,
         claimedAt := None, claimRunId := None)
  }

  function WithDiscard(row: Row, at: int): Row {
    if row.discardedAt == None then row.(discardedAt := Some(at)) else row
  }

  // ----- sightings

  /** `??`: what is stated now, or else what was known. */
  function Coalesce<T>(stated: Option<T>, known: Option<T>): Option<T> {
    if stated.Some? then stated else known
  }

  function FreshRow(p: Posting): Row {
    Row(p, None, None, None, None, None, 0, None)
  }

  /** The UPDATE of a re-sighting: everything stated replaces, nothing known is erased. */
  function Resighted(row: Row, p: Posting): Row {
    var q := row.posting;
    row.(posting := p.(seniority := Coalesce(p.seniority, q.seniority),
                       experienceYears := Coalesce(p.experienceYears, q.experienceYears),
                       applicationDeadline := Coalesce(p.applicationDeadline, q.applicationDeadline),
                       publishedAt := Coalesce(p.publishedAt, q.publishedAt),
                       sourceUrl := Coalesce(p.sourceUrl, q.sourceUrl),
                       description := Coalesce(p.description, q.description),
                       country := Coalesce(p.country, q.country),
                       firstSeenAt := q.firstSeenAt))
  }

  function Upserted(table: Table, fp: Fingerprint, p: Posting): Table {
    table[fp := if fp in table then Resighted(table[fp], p) else FreshRow(p)]
  }

  function UpsertedAll(table: Table, values: seq<(Fingerprint, Posting)>): Table {
    if values == [] then table
    else
      var last := values[|values| - 1];
      Upserted(UpsertedAll(table, values[..|values| - 1]), last.0, last.1)
  }

  /** The i-th value of a page is the first sighting of its posting. */
  predicate FirstSighting(table: Table, values: seq<(Fingerprint, Posting)>, i: nat)
    requires i < |values|
  {
    values[i].0 !in UpsertedAll(table, values[..i])
  }

  lemma UpsertedOneMore(table: Table, values: seq<(Fingerprint, Posting)>, i: nat)
    requires i < |values|
    ensures UpsertedAll(table, values[..i + 1])
         == Upserted(UpsertedAll(table, values[..i]), values[i].0, values[i].1)
  {
    assert values[..i + 1][..i] == values[..i];
  }

  /** A sighting outside the recency window only moves `lastSeenAt`, and only forward. */
  function SeenIfPresent(table: Table, fp: Fingerprint, at: int): Table {
    if fp in table && table[fp].posting.lastSeenAt < at
    then table[fp := table[fp].(posting := table[fp].posting.(lastSeenAt := at))]
    else table
  }
}
