/** PostingsRepository: every method is one transaction that updates rows in place. */
module PostingsStore {
  import opened Wrappers
  import opened PostingRows

  class PostingsRepository {
    var table: Table

    constructor ()
      ensures table == map[]
    {
      table := map[];
    }

    /** First sighting: inserted. Later ones: updated, and `firstSeenAt` never written again. */
    method UpsertIn(fp: Fingerprint, p: Posting) returns (stored: Posting, wasNew: bool)
      modifies this
      ensures table == Upserted(old(table), fp, p)
      ensures wasNew == (fp !in old(table)) && stored == table[fp].posting
      ensures !wasNew ==> stored.firstSeenAt == old(table)[fp].posting.firstSeenAt
    {
      if fp in table {
        var existing := table[fp].posting;
        var next := existing.(source := p.source, sourceId := p.sourceId, company := p.company,
                              title := p.title, city := p.city, workMode := p.workMode,
                              lastSeenAt := p.lastSeenAt, rawPayload := p.rawPayload);
        next := next.(seniority := Coalesce(p.seniority, existing.seniority),
                      experienceYears := Coalesce(p.experienceYears, existing.experienceYears),
                      applicationDeadline := Coalesce(p.applicationDeadline, existing.applicationDeadline),
                      publishedAt := Coalesce(p.publishedAt, existing.publishedAt),
                      sourceUrl := Coalesce(p.sourceUrl, existing.sourceUrl),
                      description := Coalesce(p.description, existing.description),
                      country := Coalesce(p.country, existing.country));
        table := table[fp := table[fp].(posting := next)];
        wasNew := false;
      } else {
        table := table[fp := FreshRow(p)];
        wasNew := true;
      }
      stored := table[fp].posting;
    }

    /** A page of sightings in one transaction, in order. */
    method UpsertMany(values: seq<(Fingerprint, Posting)>) returns (wasNew: seq<bool>)
      modifies this
      ensures table == UpsertedAll(old(table), values)
      ensures |wasNew| == |values|
      ensures forall i :: 0 <= i < |values| ==>
                (wasNew[i] <==> FirstSighting(old(table), values, i))
    {
      wasNew := [];
      var i := 0;
      assert UpsertedAll(table, values[..0]) == table;
      hide Upserted, UpsertedAll;
      while i < |values|
        invariant 0 <= i <= |values| && |wasNew| == i
        invariant table == UpsertedAll(old(table), values[..i])
        invariant forall j :: 0 <= j < i ==>
                    (wasNew[j] <==> FirstSighting(old(table), values, j))
      {
        UpsertedOneMore(old(table), values, i);
        assert FirstSighting(old(table), values, i) <==> values[i].0 !in table;
        hide FirstSighting;
        var stored, new_ := UpsertIn(values[i].0, values[i].1);
        wasNew := wasNew + [new_];
        i := i + 1;
      }
      assert values[..i] == values;
    }

    method MarkSeenIfPresent(fp: Fingerprint, seenAt: int)
      modifies this
      ensures table == SeenIfPresent(old(table), fp, seenAt)
    {
      if fp in table {
        var p := table[fp].posting;
        if p.lastSeenAt < seenAt {
          table := table[fp := table[fp].(posting := p.(lastSeenAt := seenAt))];
        }
      }
    }

    /** SELECT, then UPDATE of the selected rows, in one transaction. */
    method ClaimForScoring(run: RunId, claimedAt: int, staleMs: int) returns (claimed: seq<Fingerprint>)
      modifies this
      ensures table == WithClaims(old(table), run, claimedAt, staleMs)
      ensures forall fp :: fp in claimed <==> fp in ClaimedBy(old(table), claimedAt, staleMs)
      ensures forall fp :: fp in claimed <==>
                && fp in old(table)
                && var row := old(table)[fp];
                   && row.duplicateOf == None && row.notifiedAt == None && row.discardedAt == None
                   && (row.claimedAt == None || row.claimedAt.value < claimedAt - staleMs)
      ensures forall i, j :: 0 <= i < j < |claimed| ==> claimed[i] != claimed[j]
      ensures forall fp :: fp in claimed ==> fp in table && Unresolved(table[fp], run)
    {
      claimed := [];
      var rows := table.Keys;
      while rows != {}
        invariant rows <= table.Keys
        invariant forall fp :: fp in claimed <==>
                    fp in table && fp !in rows && Claimable(table[fp], claimedAt, staleMs)
        invariant forall i, j :: 0 <= i < j < |claimed| ==> claimed[i] != claimed[j]
        decreases |rows|
      {
        var fp :| fp in rows;
        if Claimable(table[fp], claimedAt, staleMs) {
          claimed := claimed + [fp];
        }
        rows := rows - {fp};
      }
      table := map fp | fp in table ::
        if fp in claimed then table[fp].(claimedAt := Some(claimedAt), claimRunId := Some(run)) else table[fp];
    }

    method ReleaseUnresolvedClaims(run: RunId)
      modifies this
      ensures table == WithReleases(old(table), run)
      ensures forall fp :: fp in table ==> table[fp].claimRunId == Some(run) ==> table[fp].notifiedAt.Some?
    {
      table := map fp | fp in table ::
        if table[fp].claimRunId == Some(run) && table[fp].notifiedAt == None
        then table[fp].(claimedAt := None, claimRunId := None)
        else table[fp];
    }

    method MarkNotifiedMany(fps: seq<Fingerprint>, notifiedAt: int)
      modifies this
      ensures table == WithNotified(old(table), (set fp | fp in fps), notifiedAt)
    {
      if |fps| == 0 {
        assert table == WithNotified(table, (set fp | fp in fps), notifiedAt);
        return;
      }
      table := map fp | fp in table :: if fp in fps then table[fp].(notifiedAt := Some(notifiedAt)) else table[fp];
    }

    method GetScoreFailureCount(fp: Fingerprint) returns (count: nat)
      ensures count == if fp in table then table[fp].scoreFailureCount else 0
    {
      count := 0;
      if fp in table {
        count := table[fp].scoreFailureCount;
      }
    }

    method RecordScoreFailure(fp: Fingerprint, failedAt: int)
      modifies this
      ensures table == if fp in old(table) then old(table)[fp := WithFailure(old(table)[fp], failedAt)] else old(table)
    {
      if fp in table {
        var row := table[fp];
        table := table[fp := row.(scoreFailureCount := row.scoreFailureCount + 1, lastScoreFailedAt := Some(failedAt))];
      }
    }

    method ClearScoreFailures(fp: Fingerprint)
      modifies this
      ensures table == if fp in old(table) then old(table)[fp := WithoutFailures(old(table)[fp])] else old(table)
    {
      if fp in table {
        table := table[fp := table[fp].(scoreFailureCount := 0, lastScoreFailedAt := None)];
      }
    }

    /** Reopens a posting whose last scoring attempt failed; anything else is left alone. */
    method Rescore(fp: Fingerprint) returns (reopened: bool)
      modifies this
      ensures reopened == (fp in old(table) && old(table)[fp].scoreFailureCount > 0)
      ensures table == if reopened then old(table)[fp := Rescored(old(table)[fp])] else old(table)
      ensures reopened ==> forall now, staleMs ::
                             Claimable(table[fp], now, staleMs) <==>
                             table[fp].duplicateOf == None && table[fp].discardedAt == None
    {
      reopened := fp in table && table[fp].scoreFailureCount > 0;
      if reopened {
        table := table[fp := table[fp].(notifiedAt := None, scoreFailureCount := 0, lastScoreFailedAt := None,
                                        claimedAt := None, claimRunId := None)];
      }
    }
  }
}
