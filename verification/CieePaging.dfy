/**
 * The CIEE collector: page after page of a board that ignores every filter, filtered in
 * memory, against the flat specification "the items worth keeping among the first so many".
 */
module CieePaging {
  import opened Wrappers

  const DEFAULT_PAGE_SIZE := 100
  const DEFAULT_MAX_RESULTS := 6000
  const DEFAULT_EDUCATION_LEVELS: seq<string> := ["SU"]

  /** A text and its normalized form. */
  datatype Text = Text(raw: string, normalized: string)

  datatype Vaga = Vaga(id: string, level: Option<string>, city: Option<Text>, area: Option<Text>)

  /** An element of `content`: accepted by the item schema or not. */
  datatype Item = Malformed | Accepted(vaga: Vaga)

  datatype Criteria = Criteria(jobName: Option<Text>, city: Option<Text>, maxResults: Option<nat>,
                               pageSize: Option<nat>, educationLevels: Option<seq<string>>)
  {
    function Max(): nat {
      if maxResults.Some? then maxResults.value else DEFAULT_MAX_RESULTS
    }

    function Size(): nat {
      if pageSize.Some? then pageSize.value else DEFAULT_PAGE_SIZE
    }

    /** What the criteria schema accepts. */
    predicate Parses() {
      Max() > 0 && Size() > 0
    }
  }

  datatype Failure = InvalidCriteria | HttpStatus | MalformedBody | UnexpectedShape | RequestFailed

  /** Counts are absent when the criteria do not parse, `truncated` also on every error. */
  datatype Collected = Collected(postings: seq<Vaga>, received: Option<nat>, schemaRejected: nat,
                                 businessRejected: nat, truncated: Option<bool>, error: Option<Failure>)

  // ----- keep

  predicate StartsAt(text: string, part: string, i: nat)
    requires i <= |text|
  {
    part <= text[i..]
  }

  predicate Contains(text: string, part: string) {
    exists i | 0 <= i <= |text| - |part| :: StartsAt(text, part, i)
  }

  predicate MatchesText(value: Option<Text>, term: Text) {
    value.Some? && value.value.raw != "" && Contains(value.value.normalized, term.normalized)
  }

  predicate Stated(term: Option<Text>) {
    term.Some? && term.value.raw != ""
  }

  predicate Keep(vaga: Vaga, criteria: Criteria) {
    var levels := if criteria.educationLevels.Some? then criteria.educationLevels.value else DEFAULT_EDUCATION_LEVELS;
    if |levels| > 0 && (if vaga.level.Some? then vaga.level.value else "") !in levels then false
    else if Stated(criteria.city) && !MatchesText(vaga.city, criteria.city.value) then false
    else if Stated(criteria.jobName) && !MatchesText(vaga.area, criteria.jobName.value) then false
    else true
  }

  /** `part` is a substring of `text`. */
  ghost predicate Within(part: string, text: string) {
    exists before: string, after: string :: text == before + part + after
  }

  lemma ContainsExactly(text: string, part: string)
    ensures Contains(text, part) <==> Within(part, text)
  {
    if Contains(text, part) {
      var i :| 0 <= i <= |text| - |part| && StartsAt(text, part, i);
      assert text == text[..i] + part + text[i + |part|..];
    }
    if Within(part, text) {
      var before: string, after: string :| text == before + part + after;
      assert text[|before|..] == part + after;
      assert StartsAt(text, part, |before|);
    }
  }

  /**
   * What is worth keeping: an allowed level, unless any is; a city that contains the one asked
   * for; and an area that contains the job name. An absent level is the empty one, and only
   * university level is allowed by default.
   */
  lemma KeepExactly(vaga: Vaga, criteria: Criteria)
    ensures Keep(vaga, criteria) <==>
            && (match criteria.educationLevels
                case None => vaga.level == Some("SU")
                case Some(levels) => levels == [] || (if vaga.level.Some? then vaga.level.value else "") in levels)
            && (criteria.city.Some? && criteria.city.value.raw != "" ==>
                  && vaga.city.Some? && vaga.city.value.raw != ""
                  && Within(criteria.city.value.normalized, vaga.city.value.normalized))
            && (criteria.jobName.Some? && criteria.jobName.value.raw != "" ==>
                  && vaga.area.Some? && vaga.area.value.raw != ""
                  && Within(criteria.jobName.value.normalized, vaga.area.value.normalized))
  {
    if criteria.city.Some? && vaga.city.Some? {
      ContainsExactly(vaga.city.value.normalized, criteria.city.value.normalized);
    }
    if criteria.jobName.Some? && vaga.area.Some? {
      ContainsExactly(vaga.area.value.normalized, criteria.jobName.value.normalized);
    }
  }

  // ----- the flat specification

  function Kept(items: seq<Item>, criteria: Criteria): seq<Vaga> {
    if items == [] then []
    else
      var before := Kept(items[..|items| - 1], criteria);
      var last := items[|items| - 1];
      if last.Accepted? && Keep(last.vaga, criteria) then before + [last.vaga] else before
  }

  function SchemaRejected(items: seq<Item>): nat {
    if items == [] then 0
    else SchemaRejected(items[..|items| - 1]) + if items[|items| - 1].Malformed? then 1 else 0
  }

  function BusinessRejected(items: seq<Item>, criteria: Criteria): nat {
    if items == [] then 0
    else
      var last := items[|items| - 1];
      BusinessRejected(items[..|items| - 1], criteria)
      + if last.Accepted? && !Keep(last.vaga, criteria) then 1 else 0
  }

  /** Every item is kept, rejected by its schema, or rejected by the criteria. */
  lemma {:induction false} ThreeWays(items: seq<Item>, criteria: Criteria)
    ensures |Kept(items, criteria)| + SchemaRejected(items) + BusinessRejected(items, criteria) == |items|
  {
    if items != [] {
      ThreeWays(items[..|items| - 1], criteria);
    }
  }

  lemma OneMoreItem(items: seq<Item>, next: Item, criteria: Criteria)
    ensures Kept(items + [next], criteria)
         == Kept(items, criteria) + if next.Accepted? && Keep(next.vaga, criteria) then [next.vaga] else []
    ensures SchemaRejected(items + [next]) == SchemaRejected(items) + if next.Malformed? then 1 else 0
    ensures BusinessRejected(items + [next], criteria)
         == BusinessRejected(items, criteria) + if next.Accepted? && !Keep(next.vaga, criteria) then 1 else 0
  {
  }

  // ----- the board

  function Least(a: nat, b: nat): nat {
    if a <= b then a else b
  }

  /** The position of a page's first item. */
  function Start(page: nat, size: nat): nat {
    page * size
  }

  function PageOf(board: seq<Item>, page: nat, size: nat): seq<Item> {
    board[Least(Start(page, size), |board|)..Least(Start(page, size) + size, |board|)]
  }

  lemma NextStart(page: nat, size: nat)
    ensures Start(0, size) == 0 && Start(page + 1, size) == Start(page, size) + size
  {
  }

  /** The running counts of the items scanned so far. */
  ghost predicate Scanned(items: seq<Item>, criteria: Criteria, postings: seq<Vaga>, schema: nat, business: nat) {
    && postings == Kept(items, criteria)
    && schema == SchemaRejected(items) && business == BusinessRejected(items, criteria)
  }

  lemma ScannedAddsUp(items: seq<Item>, criteria: Criteria, postings: seq<Vaga>, schema: nat, business: nat)
    requires Scanned(items, criteria, postings, schema, business)
    ensures |items| == |postings| + schema + business
  {
    ThreeWays(items, criteria);
  }

  lemma NothingScanned(board: seq<Item>, criteria: Criteria)
    ensures Scanned(board[..0], criteria, [], 0, 0)
  {
  }

  /** The item loop over one page. */
  method ScanItems(ghost before: seq<Item>, items: seq<Item>, criteria: Criteria,
                   postings0: seq<Vaga>, schema0: nat, business0: nat)
    returns (postings: seq<Vaga>, schema: nat, business: nat)
    requires Scanned(before, criteria, postings0, schema0, business0)
    ensures Scanned(before + items, criteria, postings, schema, business)
  {
    postings, schema, business := postings0, schema0, business0;
    var i := 0;
    assert before + items[..0] == before;
    while i < |items|
      invariant 0 <= i <= |items|
      invariant Scanned(before + items[..i], criteria, postings, schema, business)
    {
      OneMoreItem(before + items[..i], items[i], criteria);
      assert before + items[..i + 1] == before + items[..i] + [items[i]];
      match items[i] {
        case Malformed => schema := schema + 1;
        case Accepted(vaga) =>
          if !Keep(vaga, criteria) {
            business := business + 1;
          } else {
            postings := postings + [vaga];
          }
      }
      i := i + 1;
    }
    assert items[..i] == items;
  }

  datatype Answer = Page(content: seq<Item>, last: Option<bool>) | Failed(failure: Failure)

  /**
   * One request. A truthful board says `last` on exactly the page that ends it; any other
   * may say what it likes, or nothing.
   */
  method FetchPage(board: seq<Item>, page: nat, size: nat, truthful: bool, faulty: bool) returns (answer: Answer)
    ensures answer.Failed? ==> faulty && answer.failure != InvalidCriteria
    ensures answer.Page? ==> answer.content == PageOf(board, page, size)
    ensures answer.Page? && truthful ==> answer.last == Some(Start(page, size) + size >= |board|)
  {
    if {
      case faulty =>
        var failure: Failure := *;
        return Failed(if failure == InvalidCriteria then RequestFailed else failure);
      case true =>
    }
    var last: Option<bool> := *;
    answer := Page(PageOf(board, page, size), if truthful then Some(Start(page, size) + size >= |board|) else last);
  }

  /** The defaults, and what the schema accepts: whole positive numbers. */
  lemma CriteriaExactly(criteria: Criteria)
    ensures criteria.Parses() <==> criteria.maxResults != Some(0) && criteria.pageSize != Some(0)
    ensures criteria.Max() == match criteria.maxResults case Some(max) => max case None => 6000
    ensures criteria.Size() == match criteria.pageSize case Some(size) => size case None => 100
  {
  }

  /** The pages requested are 0, 1, 2 and so on, all of one size. */
  predicate InTurn(asked: seq<(nat, nat)>, size: nat) {
    forall i :: 0 <= i < |asked| ==> asked[i] == (i, size)
  }

  lemma NothingAsked(size: nat)
    ensures InTurn([], size)
  {
  }

  lemma AskedNext(asked: seq<(nat, nat)>, size: nat)
    requires InTurn(asked, size)
    ensures InTurn(asked + [(|asked|, size)], size)
  {
  }

  /**
   * collect. Whatever happens, the postings are the ones worth keeping among the `received`
   * first items of the board, and every received item is accounted for. Against a truthful
   * board and without an error, those are the first `maxResults`, and `truncated` says
   * whether there were more. `asked` are the pages requested, one after the other.
   */
  method Collect(board: seq<Item>, criteria: Criteria, truthful: bool, faulty: bool)
    returns (result: Collected, ghost asked: seq<(nat, nat)>)
    ensures InTurn(asked, criteria.Size())
    ensures result.error == Some(InvalidCriteria) <==> !criteria.Parses()
    ensures !criteria.Parses() ==> result.postings == [] && result.received.None? && asked == []
    ensures criteria.Parses() ==>
              && result.received.Some? && result.received.value <= Least(criteria.Max(), |board|)
              && Scanned(board[..result.received.value], criteria, result.postings,
                         result.schemaRejected, result.businessRejected)
              && result.received.value == |result.postings| + result.schemaRejected + result.businessRejected
    ensures result.error.Some? ==> result.truncated.None? && (faulty || !criteria.Parses())
    ensures result.error.None? && truthful ==>
              && result.received.value == Least(criteria.Max(), |board|)
              && result.truncated == Some(|board| > criteria.Max())
  {
    hide Scanned, Start, Keep, InTurn;
    if !criteria.Parses() {
      NothingAsked(criteria.Size());
      return Collected([], None, 0, 0, None, Some(InvalidCriteria)), [];
    }
    var size, max := criteria.Size(), criteria.Max();
    asked := [];
    NothingAsked(size);
    var postings, schema, business := [], 0, 0;
    var scanned, page, truncated := 0, 0, false;
    NothingScanned(board, criteria);
    NextStart(0, size);
    while scanned < max
      invariant 0 <= page == |asked| && scanned <= max && scanned <= |board|
      invariant InTurn(asked, size)
      invariant scanned < max ==> scanned == Start(page, size)
      invariant Scanned(board[..scanned], criteria, postings, schema, business)
      invariant truncated <==> scanned == max
      invariant scanned == max && truthful ==> |board| > max
      decreases max - scanned
    {
      AskedNext(asked, size);
      asked := asked + [(page, size)];
      var answer := FetchPage(board, page, size, truthful, faulty);
      if answer.Failed? {
        ScannedAddsUp(board[..scanned], criteria, postings, schema, business);
        return Collected(postings, Some(scanned), schema, business, None, Some(answer.failure)), asked;
      }
      var items := answer.content;
      if |items| == 0 {
        break;
      }
      var remaining := max - scanned;
      if |items| > remaining {
        truncated := true;
      }
      var itemsToProcess := if |items| > remaining then items[..remaining] else items;
      assert board[..scanned] + itemsToProcess == board[..scanned + |itemsToProcess|];
      postings, schema, business := ScanItems(board[..scanned], itemsToProcess, criteria, postings, schema, business);
      scanned := scanned + |itemsToProcess|;
      if answer.last == Some(true) || |items| < size {
        break;
      }
      if scanned >= max {
        truncated := true;
      }
      NextStart(page, size);
      page := page + 1;
    }
    ScannedAddsUp(board[..scanned], criteria, postings, schema, business);
    result := Collected(postings, Some(scanned), schema, business, Some(truncated), None);
  }
}
