/** What the postings table remembers of a posting, and the counters of a collection run. */
module CollectionHistory {
  import opened Wrappers
  import opened PostingRows
  import opened PostingsStore

  /** One observation: a full statement of the posting, or a sighting outside the window. */
  datatype Sighting =
    | Stated(fp: Fingerprint, posting: Posting)
    | Glimpsed(fp: Fingerprint, at: int)

  function Observed(table: Table, e: Sighting): Table {
    match e
    case Stated(fp, p) => Upserted(table, fp, p)
    case Glimpsed(fp, at) => SeenIfPresent(table, fp, at)
  }

  /** The table after observations, from the table before. */
  function ObservedAll(table: Table, es: seq<Sighting>): Table {
    if es == [] then table else Observed(ObservedAll(table, es[..|es| - 1]), es[|es| - 1])
  }

  function After(es: seq<Sighting>): Table {
    ObservedAll(map[], es)
  }

  lemma ObservedNext(table: Table, es: seq<Sighting>, e: Sighting)
    ensures ObservedAll(table, es + [e]) == Observed(ObservedAll(table, es), e)
  {
    assert (es + [e])[..|es|] == es;
  }

  lemma {:induction false} ObservedOn(table: Table, es: seq<Sighting>, more: seq<Sighting>)
    ensures ObservedAll(table, es + more) == ObservedAll(ObservedAll(table, es), more)
  {
    if more == [] {
      assert es + more == es;
    } else {
      var front, last := more[..|more| - 1], more[|more| - 1];
      ObservedOn(table, es, front);
      ObservedNext(table, es + front, last);
      assert es + more == es + front + [last];
    }
  }

  // ----- what a sequence of observations says about one posting

  function StatedOf(es: seq<Sighting>, fp: Fingerprint): (ps: seq<Posting>) {
    if es == [] then []
    else
      var before := StatedOf(es[..|es| - 1], fp);
      var last := es[|es| - 1];
      if last.Stated? && last.fp == fp then before + [last.posting] else before
  }

  /** The last value some statement gave for a field, if any did. */
  function LastValue<T>(ps: seq<Posting>, field: Posting -> Option<T>): Option<T> {
    if ps == [] then None
    else if field(ps[|ps| - 1]).Some? then field(ps[|ps| - 1])
    else LastValue(ps[..|ps| - 1], field)
  }

  function Deadline(p: Posting): Option<int> { p.applicationDeadline }
  function Published(p: Posting): Option<int> { p.publishedAt }
  function Url(p: Posting): Option<string> { p.sourceUrl }
  function Description(p: Posting): Option<string> { p.description }
  function Country(p: Posting): Option<string> { p.country }

  /** Exactly what the stored posting owes to each statement made about it. */
  ghost predicate Remembers(stored: Posting, ps: seq<Posting>)
    requires ps != []
  {
    && stored.firstSeenAt == ps[0].firstSeenAt
    && stored.applicationDeadline == LastValue(ps, Deadline)
    && stored.publishedAt == LastValue(ps, Published)
    && stored.sourceUrl == LastValue(ps, Url)
    && stored.description == LastValue(ps, Description)
    && stored.country == LastValue(ps, Country)
    && (var last := ps[|ps| - 1];
        && stored.source == last.source && stored.sourceId == last.sourceId
        && stored.company == last.company && stored.title == last.title
        && stored.city == last.city && stored.workMode == last.workMode
        && stored.rawPayload == last.rawPayload && stored.lastSeenAt >= last.lastSeenAt)
  }

  lemma RememberedOnce(stored: Posting, ps: seq<Posting>, p: Posting, row: Row)
    requires ps != [] ==> Remembers(stored, ps)
    requires row.posting == stored
    ensures Remembers(if ps == [] then p else Resighted(row, p).posting, ps + [p])
  {
  }

  /**
   * After any observations of any postings: a posting has a row exactly when it has been
   * stated, and the row remembers the statements.
   */
  lemma {:induction false} HistoryIsRemembered(es: seq<Sighting>, fp: Fingerprint)
    ensures fp in After(es) <==> StatedOf(es, fp) != []
    ensures fp in After(es) ==> Remembers(After(es)[fp].posting, StatedOf(es, fp))
  {
    if es != [] {
      var before, last := es[..|es| - 1], es[|es| - 1];
      HistoryIsRemembered(before, fp);
      var ps := StatedOf(before, fp);
      if last.Stated? && last.fp == fp {
        var row := if fp in After(before) then After(before)[fp] else FreshRow(last.posting);
        RememberedOnce(row.posting, ps, last.posting, row);
      }
    }
  }

  /** The value of `lastSeenAt`: of the last statement, or of a later glimpse when that is later. */
  ghost predicate SeenLast(es: seq<Sighting>, fp: Fingerprint, k: nat, at: int)
    requires k < |es| && es[k].Stated?
  {
    && es[k].posting.lastSeenAt <= at
    && (forall j :: k < j < |es| && es[j].Glimpsed? && es[j].fp == fp ==> es[j].at <= at)
    && (at == es[k].posting.lastSeenAt
        || exists j :: k < j < |es| && es[j].Glimpsed? && es[j].fp == fp && es[j].at == at)
  }

  /** Since its last statement a posting is dated by the latest time it was seen at all. */
  lemma {:induction false} LastSeenExactly(es: seq<Sighting>, fp: Fingerprint, k: nat)
    requires k < |es| && es[k].Stated? && es[k].fp == fp
    requires forall j :: k < j < |es| && es[j].Stated? ==> es[j].fp != fp
    ensures fp in After(es) && SeenLast(es, fp, k, After(es)[fp].posting.lastSeenAt)
  {
    var before, last := es[..|es| - 1], es[|es| - 1];
    if k < |es| - 1 {
      LastSeenExactly(before, fp, k);
      var was := After(before)[fp].posting.lastSeenAt;
      assert before[k] == es[k];
      if last == Glimpsed(fp, After(es)[fp].posting.lastSeenAt) {
        assert es[|es| - 1].at == After(es)[fp].posting.lastSeenAt;
      } else {
        assert After(es)[fp].posting.lastSeenAt == was;
        if was != es[k].posting.lastSeenAt {
          var j :| k < j < |before| && before[j].Glimpsed? && before[j].fp == fp && before[j].at == was;
          assert es[j] == before[j];
        }
      }
    }
  }

  /** `wasNew` of the i-th observation. */
  predicate NewAt(es: seq<Sighting>, i: nat)
    requires i < |es|
  {
    es[i].Stated? && es[i].fp !in After(es[..i])
  }

  lemma {:induction false} StaysPresent(es: seq<Sighting>, i: nat, j: nat, fp: Fingerprint)
    requires i <= j <= |es| && fp in After(es[..i])
    ensures fp in After(es[..j])
  {
    if i < j {
      StaysPresent(es, i, j - 1, fp);
      assert es[..j][..j - 1] == es[..j - 1];
    }
  }

  lemma StatedIsPresent(es: seq<Sighting>, i: nat)
    requires i < |es| && es[i].Stated?
    ensures es[i].fp in After(es[..i + 1])
  {
  }

  lemma {:induction false} StatedOfHas(es: seq<Sighting>, fp: Fingerprint)
    requires StatedOf(es, fp) != []
    ensures exists j :: 0 <= j < |es| && es[j].Stated? && es[j].fp == fp
  {
    var before, last := es[..|es| - 1], es[|es| - 1];
    if last.Stated? && last.fp == fp {
      assert es[|es| - 1].fp == fp;
    } else {
      StatedOfHas(before, fp);
      var j :| 0 <= j < |before| && before[j].Stated? && before[j].fp == fp;
      assert es[j] == before[j];
    }
  }

  /** `wasNew` is true for exactly one statement of a posting: the first. */
  lemma NewExactlyOnce(es: seq<Sighting>, i: nat)
    requires i < |es| && es[i].Stated?
    ensures NewAt(es, i) <==> forall j :: 0 <= j < i && es[j].Stated? ==> es[j].fp != es[i].fp
  {
    if NewAt(es, i) {
      forall j | 0 <= j < i && es[j].Stated?
        ensures es[j].fp != es[i].fp
      {
        StatedIsPresent(es, j);
        if es[j].fp == es[i].fp {
          StaysPresent(es, j + 1, i, es[i].fp);
        }
      }
    } else {
      HistoryIsRemembered(es[..i], es[i].fp);
      StatedOfHas(es[..i], es[i].fp);
    }
  }

  // ----- executeCollect

  /** One raw item: without normalizer, rejected by it, outside the recency window, or kept. */
  datatype Raw = Unnormalizable | TooOld(fp: Fingerprint) | Kept(fp: Fingerprint, posting: Posting)

  /** A query's answer: the items, how many the source sent if it can tell, and when it came. */
  datatype Answer = Answer(items: seq<Raw>, receivedCount: Option<nat>, collectedAt: int)

  ghost function Items(answers: seq<Answer>): nat {
    if answers == [] then 0 else Items(answers[..|answers| - 1]) + |answers[|answers| - 1].items|
  }

  /** What the items outside the window amount to. */
  function Glimpses(items: seq<Raw>, at: int): seq<Sighting> {
    if items == [] then []
    else
      var before := Glimpses(items[..|items| - 1], at);
      match items[|items| - 1]
      case TooOld(fp) => before + [Glimpsed(fp, at)]
      case _ => before
  }

  /** What the kept items state. */
  function Statements(items: seq<Raw>): seq<Sighting> {
    if items == [] then []
    else
      var before := Statements(items[..|items| - 1]);
      match items[|items| - 1]
      case Kept(fp, posting) => before + [Stated(fp, posting)]
      case _ => before
  }

  /** One query: the old ones are seen as they are met, the kept ones stored together at the end. */
  function Sightings(answer: Answer): seq<Sighting> {
    Glimpses(answer.items, answer.collectedAt) + Statements(answer.items)
  }

  function AllSightings(answers: seq<Answer>): seq<Sighting> {
    if answers == [] then [] else AllSightings(answers[..|answers| - 1]) + Sightings(answers[|answers| - 1])
  }

  function Values(items: seq<Raw>): seq<(Fingerprint, Posting)> {
    if items == [] then []
    else
      var before := Values(items[..|items| - 1]);
      match items[|items| - 1]
      case Kept(fp, posting) => before + [(fp, posting)]
      case _ => before
  }

  lemma OneMoreItem(items: seq<Raw>, i: nat, at: int)
    requires i < |items|
    ensures Glimpses(items[..i + 1], at)
         == if items[i].TooOld? then Glimpses(items[..i], at) + [Glimpsed(items[i].fp, at)]
            else Glimpses(items[..i], at)
    ensures Values(items[..i + 1])
         == if items[i].Kept? then Values(items[..i]) + [(items[i].fp, items[i].posting)] else Values(items[..i])
  {
    assert items[..i + 1][..i] == items[..i];
  }

  lemma NoItems(at: int)
    ensures Glimpses([], at) == [] && Values([]) == []
  {
  }

  /** Storing the kept items of an answer is observing its statements. */
  lemma {:induction false} StoredAreStated(table: Table, items: seq<Raw>)
    ensures UpsertedAll(table, Values(items)) == ObservedAll(table, Statements(items))
  {
    if items != [] {
      var front, last := items[..|items| - 1], items[|items| - 1];
      StoredAreStated(table, front);
      if last.Kept? {
        ObservedNext(table, Statements(front), Stated(last.fp, last.posting));
        assert (Values(front) + [(last.fp, last.posting)])[..|Values(front)|] == Values(front);
      }
    }
  }

  ghost function Trues(flags: seq<bool>): nat {
    if flags == [] then 0 else Trues(flags[..|flags| - 1]) + if flags[|flags| - 1] then 1 else 0
  }

  lemma NoTrues()
    ensures Trues([]) == 0
  {
  }

  lemma TruesNext(flags: seq<bool>, i: nat)
    requires i < |flags|
    ensures Trues(flags[..i + 1]) == Trues(flags[..i]) + if flags[i] then 1 else 0
  {
    assert flags[..i + 1][..i] == flags[..i];
  }

  lemma Grows(table: Table, fp: Fingerprint, p: Posting)
    ensures |Upserted(table, fp, p)| == |table| + if fp in table then 0 else 1
  {
  }

  /** The table grows by one row per `wasNew`. */
  lemma {:induction false} NewOnesGrow(table: Table, values: seq<(Fingerprint, Posting)>, wasNew: seq<bool>)
    requires |wasNew| == |values|
    requires forall i :: 0 <= i < |values| ==> (wasNew[i] <==> FirstSighting(table, values, i))
    ensures |UpsertedAll(table, values)| == |table| + Trues(wasNew)
  {
    if values != [] {
      var n := |values| - 1;
      var before := values[..n];
      forall i | 0 <= i < n
        ensures wasNew[..n][i] <==> FirstSighting(table, before, i)
      {
        assert before[..i] == values[..i];
      }
      NewOnesGrow(table, before, wasNew[..n]);
      Grows(UpsertedAll(table, before), values[n].0, values[n].1);
      assert wasNew[n] <==> FirstSighting(table, values, n);
    }
  }

  class Collect {
    const repo: PostingsRepository

    var collected: nat
    var normalized: nat
    var isNew: nat
    var alreadySeen: nat
    var tooOld: nat
    var unnormalizable: nat
    var received: Option<nat>

    ghost predicate Balanced()
      reads this
    {
      collected == normalized + tooOld + unnormalizable && normalized == isNew + alreadySeen
    }

    constructor (repo: PostingsRepository)
      ensures this.repo == repo && Balanced() && collected == 0 && isNew == 0 && received == Some(0)
    {
      this.repo := repo;
      collected, normalized, isNew, alreadySeen, tooOld, unnormalizable, received := 0, 0, 0, 0, 0, 0, Some(0);
    }

    /** What a run that throws leaves: nothing is counted twice. */
    ghost predicate NoneTwice()
      reads this
    {
      normalized + tooOld + unnormalizable <= collected && isNew + alreadySeen <= normalized
    }

    lemma NothingObserved(table: Table)
      ensures ObservedAll(table, []) == table
    {
    }

    /** The items of one answer; an exception may come before any of them. */
    method Normalize(items: seq<Raw>, collectedAt: int, faulty: bool)
      returns (threw: bool, persistable: seq<(Fingerprint, Posting)>, ghost met: nat)
      modifies this`normalized, this`tooOld, this`unnormalizable, repo
      ensures threw ==> faulty
      ensures met <= |items| && (!threw ==> met == |items|)
      ensures repo.table == ObservedAll(old(repo.table), Glimpses(items[..met], collectedAt))
      ensures repo.table.Keys == old(repo.table.Keys)
      ensures persistable == Values(items[..met]) && |persistable| == normalized - old(normalized)
      ensures tooOld - old(tooOld) == |Glimpses(items[..met], collectedAt)|
      ensures met == (normalized - old(normalized)) + (tooOld - old(tooOld)) + (unnormalizable - old(unnormalizable))
      ensures unnormalizable >= old(unnormalizable)
    {
      hide Glimpses, Values, ObservedAll;
      threw, persistable := false, [];
      var i := 0;
      NoItems(collectedAt);
      NothingObserved(repo.table);
      assert items[..0] == [];
      while i < |items|
        invariant 0 <= i <= |items| && repo.table.Keys == old(repo.table.Keys)
        invariant repo.table == ObservedAll(old(repo.table), Glimpses(items[..i], collectedAt))
        invariant persistable == Values(items[..i]) && |persistable| == normalized - old(normalized)
        invariant tooOld - old(tooOld) == |Glimpses(items[..i], collectedAt)|
        invariant unnormalizable >= old(unnormalizable)
        invariant i == (normalized - old(normalized)) + (tooOld - old(tooOld)) + (unnormalizable - old(unnormalizable))
      {
        if {
          case faulty => return true, persistable, i;
          case true =>
        }
        OneMoreItem(items, i, collectedAt);
        match items[i] {
          case Unnormalizable => unnormalizable := unnormalizable + 1;
          case TooOld(fp) =>
            ObservedNext(old(repo.table), Glimpses(items[..i], collectedAt), Glimpsed(fp, collectedAt));
            repo.MarkSeenIfPresent(fp, collectedAt);
            tooOld := tooOld + 1;
          case Kept(fp, posting) =>
            normalized := normalized + 1;
            persistable := persistable + [(fp, posting)];
        }
        i := i + 1;
      }
      met := i;
    }

    method CountNew(wasNew: seq<bool>, faulty: bool) returns (threw: bool)
      modifies this`isNew, this`alreadySeen
      ensures threw ==> faulty
      ensures isNew >= old(isNew) && alreadySeen >= old(alreadySeen)
      ensures var done := (isNew - old(isNew)) + (alreadySeen - old(alreadySeen));
              if threw then done <= |wasNew| else done == |wasNew|
      ensures !threw ==> isNew - old(isNew) == Trues(wasNew)
    {
      hide Trues;
      var i := 0;
      NoTrues();
      assert wasNew[..0] == [];
      while i < |wasNew|
        invariant 0 <= i <= |wasNew|
        invariant isNew == old(isNew) + Trues(wasNew[..i])
        invariant alreadySeen == old(alreadySeen) + i - Trues(wasNew[..i]) && Trues(wasNew[..i]) <= i
      {
        if {
          case faulty => return true;
          case true =>
        }
        TruesNext(wasNew, i);
        if wasNew[i] {
          isNew := isNew + 1;
        } else {
          alreadySeen := alreadySeen + 1;
        }
        i := i + 1;
      }
      assert wasNew[..i] == wasNew;
      threw := false;
    }

    /** One transaction for the page, then the split into new and already seen. */
    method Persist(persistable: seq<(Fingerprint, Posting)>, faulty: bool) returns (threw: bool, ghost stored: bool)
      modifies this`isNew, this`alreadySeen, repo
      ensures threw ==> faulty
      ensures repo.table == if stored then UpsertedAll(old(repo.table), persistable) else old(repo.table)
      ensures !threw ==> stored
      ensures isNew >= old(isNew) && alreadySeen >= old(alreadySeen)
      ensures var done := (isNew - old(isNew)) + (alreadySeen - old(alreadySeen));
              if threw then done <= |persistable|
              else done == |persistable| && |repo.table| - old(|repo.table|) == isNew - old(isNew)
    {
      if {
        case faulty => return true, false;
        case true =>
      }
      var wasNew := repo.UpsertMany(persistable);
      NewOnesGrow(old(repo.table), persistable, wasNew);
      hide UpsertedAll, Trues;
      threw := CountNew(wasNew, faulty);
      stored := true;
    }

    static lemma SameKeysSameSize(a: Table, b: Table)
      requires a.Keys == b.Keys
      ensures |a| == |b|
    {
    }

    static lemma {:induction false} GlimpsesSoFar(items: seq<Raw>, met: nat, at: int)
      requires met <= |items|
      ensures Glimpses(items[..met], at) <= Glimpses(items, at)
    {
      if met == |items| {
        assert items[..met] == items;
      } else {
        GlimpsesSoFar(items[..|items| - 1], met, at);
        assert items[..|items| - 1][..met] == items[..met];
      }
    }

    /** `seen` is what the table has been told: all the answer says, unless an exception came. */
    method CollectQuery(answer: Answer, faulty: bool) returns (threw: bool, ghost seen: seq<Sighting>)
      requires Balanced()
      modifies this, repo
      ensures threw ==> faulty && NoneTwice()
      ensures repo.table == ObservedAll(old(repo.table), seen)
      ensures seen <= Sightings(answer) && (!threw ==> seen == Sightings(answer))
      ensures !threw ==> Balanced() && collected == old(collected) + |answer.items|
      ensures !threw ==> tooOld == old(tooOld) + |Glimpses(answer.items, answer.collectedAt)|
                         && normalized == old(normalized) + |Values(answer.items)|
      ensures !threw ==> |repo.table| - old(|repo.table|) == isNew - old(isNew)
      ensures received == (if answer.receivedCount.Some? && old(received).Some?
                           then Some(old(received).value + answer.receivedCount.value) else None)
    {
      hide Glimpses, Values, Statements, ObservedAll, UpsertedAll;
      var items, at := answer.items, answer.collectedAt;
      collected := collected + |items|;
      received := if answer.receivedCount.None? || received.None? then None
                  else Some(received.value + answer.receivedCount.value);
      var persistable;
      ghost var met, stored;
      threw, persistable, met := Normalize(items, at, faulty);
      if threw {
        GlimpsesSoFar(items, met, at);
        return true, Glimpses(items[..met], at);
      }
      assert items[..met] == items;
      SameKeysSameSize(old(repo.table), repo.table);
      threw, stored := Persist(persistable, faulty);
      StoredAreStated(ObservedAll(old(repo.table), Glimpses(items, at)), items);
      ObservedOn(old(repo.table), Glimpses(items, at), Statements(items));
      seen := if stored then Sightings(answer) else Glimpses(items, at);
    }

    static lemma {:induction false} AllSightingsSoFar(answers: seq<Answer>, i: nat)
      requires i < |answers|
      ensures AllSightings(answers[..i + 1]) == AllSightings(answers[..i]) + Sightings(answers[i])
      ensures AllSightings(answers[..i + 1]) <= AllSightings(answers)
    {
      assert answers[..i + 1][..i] == answers[..i];
      if i + 1 == |answers| {
        assert answers[..i + 1] == answers;
      } else {
        var front := answers[..|answers| - 1];
        AllSightingsSoFar(front, i);
        assert front[..i + 1] == answers[..i + 1] && front[..i] == answers[..i];
      }
    }

    /**
     * A completed run: the table has been told everything the answers say, in their order, and
     * nothing else; everything the collectors returned is normalized, too old or not
     * normalizable; everything normalized was new or already there; the table has grown by
     * the new ones; and `received` is a total only if every query could tell. A run that throws
     * has told the table the first part of that.
     */
    method ExecuteCollect(answers: seq<Answer>, faulty: bool) returns (threw: bool, ghost seen: seq<Sighting>)
      requires Balanced() && collected == 0 && isNew == 0 && received == Some(0)
      modifies this, repo
      ensures threw ==> faulty && NoneTwice()
      ensures repo.table == ObservedAll(old(repo.table), seen)
      ensures seen <= AllSightings(answers) && (!threw ==> seen == AllSightings(answers))
      ensures !threw ==> Balanced() && collected == Items(answers)
      ensures !threw ==> |repo.table| == old(|repo.table|) + isNew
      ensures !threw ==> (received.Some? <==> forall a :: a in answers ==> a.receivedCount.Some?)
    {
      hide Sightings, ObservedAll;
      var i := 0;
      seen := [];
      NothingObserved(repo.table);
      while i < |answers|
        invariant 0 <= i <= |answers| && Balanced() && collected == Items(answers[..i])
        invariant seen == AllSightings(answers[..i]) && repo.table == ObservedAll(old(repo.table), seen)
        invariant |repo.table| == old(|repo.table|) + isNew
        invariant received.Some? <==> forall a :: a in answers[..i] ==> a.receivedCount.Some?
      {
        assert answers[..i + 1] == answers[..i] + [answers[i]];
        ghost var told;
        threw, told := CollectQuery(answers[i], faulty);
        ObservedOn(old(repo.table), seen, told);
        AllSightingsSoFar(answers, i);
        seen := seen + told;
        if threw {
          return true, seen;
        }
        i := i + 1;
      }
      assert answers[..i] == answers;
      threw := false;
    }
  }

  /**
   * So whatever any runs have been told, one after the other from an empty table, is
   * remembered as `HistoryIsRemembered` says.
   */
  lemma RunsAreHistory(es: seq<Sighting>, table: Table, seen: seq<Sighting>)
    requires table == After(es)
    ensures ObservedAll(table, seen) == After(es + seen)
  {
    ObservedOn(map[], es, seen);
  }
}
