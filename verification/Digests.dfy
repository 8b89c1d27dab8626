/** The digest: which lines it has, in which section, in which order. */
module Digests {
  import opened Wrappers
  import opened PostingRows
  import opened RunAccounting

  datatype Verdict = Apply | Review | Discard

  /** A line of the digest; `failure` is set on the placeholder of a posting that failed. */
  datatype Entry = Entry(fp: Fingerprint, verdict: Verdict, score: int, reachable: bool, failure: Option<Reason>)

  datatype Digest = Digest(recommended: seq<Entry>, review: seq<Entry>, unreachable: seq<Entry>)

  predicate Wanted(e: Entry) {
    e.verdict != Verdict.Discard
  }

  /** Reported in this digest, but to be tried again by a later run. */
  predicate Recoverable(e: Entry) {
    e.failure.Some? && e.failure.value != MaxRetriesExceeded
  }

  /** The lines whose postings the delivery run goes on to settle. */
  function Lines(d: Digest): seq<Entry> {
    d.recommended + d.review + d.unreachable
  }

  // ----- parts of a list, order kept

  function Only<T>(s: seq<T>, p: T -> bool): seq<T> {
    if s == [] then [] else Only(s[..|s| - 1], p) + if p(s[|s| - 1]) then [s[|s| - 1]] else []
  }

  lemma OnlyNext<T>(s: seq<T>, x: T, p: T -> bool)
    ensures Only(s + [x], p) == Only(s, p) + if p(x) then [x] else []
  {
    assert (s + [x])[..|s|] == s;
  }

  lemma {:induction false} InOnly<T>(s: seq<T>, p: T -> bool, x: T)
    ensures x in Only(s, p) <==> x in s && p(x)
  {
    if s != [] {
      InOnly(s[..|s| - 1], p, x);
      assert s == s[..|s| - 1] + [s[|s| - 1]];
    }
  }

  // ----- best match first

  /** The entries with one score, order kept. */
  function Scoring(s: seq<Entry>, score: int): seq<Entry> {
    if s == [] then []
    else Scoring(s[..|s| - 1], score) + if s[|s| - 1].score == score then [s[|s| - 1]] else []
  }

  predicate Descending(s: seq<Entry>) {
    forall i, j :: 0 <= i < j < |s| ==> s[i].score >= s[j].score
  }

  /** The order of a section: the best score first, equal scores as they came. */
  ghost predicate BestFirst(sorted: seq<Entry>, s: seq<Entry>) {
    && Descending(sorted)
    && (forall k :: Scoring(sorted, k) == Scoring(s, k))
    && (forall e :: e in sorted <==> e in s)
  }

  function Placed(s: seq<Entry>, e: Entry): seq<Entry> {
    if s == [] || s[|s| - 1].score >= e.score then s + [e]
    else Placed(s[..|s| - 1], e) + [s[|s| - 1]]
  }

  function Ranked(s: seq<Entry>): seq<Entry> {
    if s == [] then [] else Placed(Ranked(s[..|s| - 1]), s[|s| - 1])
  }

  lemma {:induction false} InPlaced(s: seq<Entry>, e: Entry, x: Entry)
    ensures x in Placed(s, e) <==> x in s || x == e
  {
    if s == [] || s[|s| - 1].score >= e.score {
    } else {
      InPlaced(s[..|s| - 1], e, x);
      assert s == s[..|s| - 1] + [s[|s| - 1]];
    }
  }

  lemma {:induction false} PlacedIsDescending(s: seq<Entry>, e: Entry)
    requires Descending(s)
    ensures Descending(Placed(s, e))
  {
    if s == [] || s[|s| - 1].score >= e.score {
    } else {
      var front, last := s[..|s| - 1], s[|s| - 1];
      PlacedIsDescending(front, e);
      forall x | x in Placed(front, e)
        ensures x.score >= last.score
      {
        InPlaced(front, e, x);
      }
    }
  }

  lemma ScoringNext(s: seq<Entry>, e: Entry, k: int)
    ensures Scoring(s + [e], k) == Scoring(s, k) + if e.score == k then [e] else []
  {
    assert (s + [e])[..|s|] == s;
  }

  lemma {:induction false} PlacedIsStable(s: seq<Entry>, e: Entry, k: int)
    requires Descending(s)
    ensures Scoring(Placed(s, e), k) == Scoring(s, k) + if e.score == k then [e] else []
  {
    if s == [] || s[|s| - 1].score >= e.score {
      ScoringNext(s, e, k);
    } else {
      var front, last := s[..|s| - 1], s[|s| - 1];
      PlacedIsStable(front, e, k);
      ScoringNext(Placed(front, e), last, k);
    }
  }

  lemma {:induction false} RankedIsBestFirst(s: seq<Entry>)
    ensures BestFirst(Ranked(s), s)
  {
    if s != [] {
      var front, last := s[..|s| - 1], s[|s| - 1];
      RankedIsBestFirst(front);
      PlacedIsDescending(Ranked(front), last);
      forall k
        ensures Scoring(Ranked(s), k) == Scoring(s, k)
      {
        PlacedIsStable(Ranked(front), last, k);
      }
      forall e
        ensures e in Ranked(s) <==> e in s
      {
        InPlaced(Ranked(front), last, e);
        assert s == front + [last];
      }
    }
  }

  // ----- one line a posting

  predicate OnceEach(s: seq<Entry>) {
    forall i, j :: 0 <= i < j < |s| ==> s[i].fp != s[j].fp
  }

  lemma {:induction false} OnlyOnceEach(s: seq<Entry>, p: Entry -> bool)
    requires OnceEach(s)
    ensures OnceEach(Only(s, p))
  {
    if s != [] {
      var front, last := s[..|s| - 1], s[|s| - 1];
      OnlyOnceEach(front, p);
      forall x | x in Only(front, p)
        ensures x.fp != last.fp
      {
        InOnly(front, p, x);
      }
    }
  }

  lemma {:induction false} PlacedOnceEach(s: seq<Entry>, e: Entry)
    requires OnceEach(s) && forall x :: x in s ==> x.fp != e.fp
    ensures OnceEach(Placed(s, e))
  {
    if s == [] || s[|s| - 1].score >= e.score {
    } else {
      var front, last := s[..|s| - 1], s[|s| - 1];
      PlacedOnceEach(front, e);
      forall x | x in Placed(front, e)
        ensures x.fp != last.fp
      {
        InPlaced(front, e, x);
      }
    }
  }

  lemma {:induction false} RankedOnceEach(s: seq<Entry>)
    requires OnceEach(s)
    ensures OnceEach(Ranked(s))
  {
    if s != [] {
      var front, last := s[..|s| - 1], s[|s| - 1];
      RankedOnceEach(front);
      RankedIsBestFirst(front);
      PlacedOnceEach(Ranked(front), last);
    }
  }

  // ----- composeDigest

  predicate Recommended(e: Entry) {
    e.verdict == Apply && e.reachable
  }

  predicate ToReview(e: Entry) {
    e.verdict == Review && e.reachable
  }

  predicate Unreachable(e: Entry) {
    Wanted(e) && !e.reachable
  }

  /** Discards are in no section, entries without a link in their own, each best match first. */
  ghost predicate Composed(d: Digest, entries: seq<Entry>) {
    && BestFirst(d.recommended, Only(entries, Recommended))
    && BestFirst(d.review, Only(entries, ToReview))
    && BestFirst(d.unreachable, Only(entries, Unreachable))
  }

  ghost predicate Sectioned(entries: seq<Entry>, d: Digest) {
    && d.recommended == Ranked(Only(entries, Recommended))
    && d.review == Ranked(Only(entries, ToReview))
    && d.unreachable == Ranked(Only(entries, Unreachable))
  }

  lemma Sections(entries: seq<Entry>, d: Digest)
    requires Sectioned(entries, d)
    ensures Composed(d, entries)
    ensures forall e :: e in Lines(d) <==> e in entries && Wanted(e)
  {
    RankedIsBestFirst(Only(entries, Recommended));
    RankedIsBestFirst(Only(entries, ToReview));
    RankedIsBestFirst(Only(entries, Unreachable));
    forall e
      ensures e in Lines(d) <==> e in entries && Wanted(e)
    {
      InOnly(entries, Recommended, e);
      InOnly(entries, ToReview, e);
      InOnly(entries, Unreachable, e);
    }
  }

  lemma Apart(entries: seq<Entry>, p: Entry -> bool, q: Entry -> bool)
    requires OnceEach(entries) && forall e :: e in entries ==> !(p(e) && q(e))
    ensures forall d, e :: d in Ranked(Only(entries, p)) && e in Ranked(Only(entries, q)) ==> d.fp != e.fp
  {
    RankedIsBestFirst(Only(entries, p));
    RankedIsBestFirst(Only(entries, q));
    forall d, e | d in Ranked(Only(entries, p)) && e in Ranked(Only(entries, q))
      ensures d.fp != e.fp
    {
      InOnly(entries, p, d);
      InOnly(entries, q, e);
    }
  }

  lemma Joined(s: seq<Entry>, t: seq<Entry>)
    requires OnceEach(s) && OnceEach(t) && forall d, e :: d in s && e in t ==> d.fp != e.fp
    ensures OnceEach(s + t)
  {
  }

  lemma SectionsOnceEach(entries: seq<Entry>, d: Digest)
    requires Sectioned(entries, d) && OnceEach(entries)
    ensures OnceEach(Lines(d))
  {
    OnlyOnceEach(entries, Recommended);
    OnlyOnceEach(entries, ToReview);
    OnlyOnceEach(entries, Unreachable);
    RankedOnceEach(Only(entries, Recommended));
    RankedOnceEach(Only(entries, ToReview));
    RankedOnceEach(Only(entries, Unreachable));
    Apart(entries, Recommended, ToReview);
    Apart(entries, Recommended, Unreachable);
    Apart(entries, ToReview, Unreachable);
    Joined(d.recommended, d.review);
    Joined(d.recommended + d.review, d.unreachable);
  }

  method ComposeDigest(entries: seq<Entry>) returns (digest: Digest)
    ensures Composed(digest, entries)
    ensures forall e :: e in Lines(digest) <==> e in entries && Wanted(e)
    ensures OnceEach(entries) ==> OnceEach(Lines(digest))
  {
    var recommended: seq<Entry>, review: seq<Entry>, unreachable: seq<Entry> := [], [], [];
    var i := 0;
    while i < |entries|
      invariant 0 <= i <= |entries|
      invariant recommended == Only(entries[..i], Recommended)
      invariant review == Only(entries[..i], ToReview)
      invariant unreachable == Only(entries[..i], Unreachable)
    {
      var entry := entries[i];
      assert entries[..i + 1] == entries[..i] + [entry];
      OnlyNext(entries[..i], entry, Recommended);
      OnlyNext(entries[..i], entry, ToReview);
      OnlyNext(entries[..i], entry, Unreachable);
      if Wanted(entry) {
        if !entry.reachable {
          unreachable := unreachable + [entry];
        } else if entry.verdict == Apply {
          recommended := recommended + [entry];
        } else {
          review := review + [entry];
        }
      }
      i := i + 1;
    }
    assert entries[..i] == entries;
    digest := Digest(Ranked(recommended), Ranked(review), Ranked(unreachable));
    Sections(entries, digest);
    if OnceEach(entries) {
      SectionsOnceEach(entries, digest);
    }
  }
}
