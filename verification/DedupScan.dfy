/**
 * The second deduplication layer: within a company, oldest first, each posting against the
 * newest few earlier ones inside the time window. The sliding scan reports exactly what
 * comparing against every earlier posting would.
 */
module DedupScan {
  import opened Wrappers
  import opened TitleWords
  import TitleSimilarity

  const MS_PER_DAY := 24 * 60 * 60 * 1000
  const DEFAULT_MAX_COMPARISONS := 500
  const COMPANY_SUFFIXES: set<string> := {"sa", "ltda", "me", "eireli", "epp"}

  /** `company` as the words of its normalized name, `city` normalized. */
  datatype Posting = Posting(
    fp: string,
    company: seq<string>,
    title: seq<Symbol>,
    city: Option<string>,
    firstSeenAt: int)

  datatype Config = Config(similarityThreshold: real, windowDays: int, maxComparisons: Option<int>)

  datatype Candidate = Candidate(candidate: Posting, canonical: Posting, similarity: real)

  // ----- the company key

  /** The key is the shortest non-empty prefix that drops nothing but suffixes. */
  ghost predicate IsKey(company: seq<string>, key: seq<string>) {
    && key <= company && (company != [] ==> key != [])
    && (forall i :: |key| <= i < |company| ==> company[i] in COMPANY_SUFFIXES)
    && (|key| > 1 ==> key[|key| - 1] !in COMPANY_SUFFIXES)
  }

  lemma KeyNotLonger(company: seq<string>, a: seq<string>, b: seq<string>)
    requires IsKey(company, a) && IsKey(company, b)
    ensures |b| <= |a|
  {
  }

  lemma KeyUnique(company: seq<string>, a: seq<string>, b: seq<string>)
    requires IsKey(company, a) && IsKey(company, b)
    ensures a == b
  {
    KeyNotLonger(company, a, b);
    KeyNotLonger(company, b, a);
  }

  /** Trailing legal suffixes dropped, but never the last word. */
  function KeyOf(company: seq<string>): (key: seq<string>)
    ensures IsKey(company, key)
  {
    if |company| > 1 && company[|company| - 1] in COMPANY_SUFFIXES then KeyOf(company[..|company| - 1]) else company
  }

  /** normalizeCompanyForGrouping. */
  method CompanyKey(company: seq<string>) returns (tokens: seq<string>)
    ensures tokens == KeyOf(company)
  {
    tokens := company;
    while |tokens| > 1 && tokens[|tokens| - 1] in COMPANY_SUFFIXES
      invariant tokens <= company && (company != [] ==> tokens != [])
      invariant forall i :: |tokens| <= i < |company| ==> company[i] in COMPANY_SUFFIXES
    {
      tokens := tokens[..|tokens| - 1];
    }
    KeyUnique(company, tokens, KeyOf(company));
  }

  // ----- when two postings match

  predicate WithinWindow(a: Posting, b: Posting, windowDays: int) {
    var diff := if a.firstSeenAt >= b.firstSeenAt then a.firstSeenAt - b.firstSeenAt else b.firstSeenAt - a.firstSeenAt;
    diff <= windowDays * MS_PER_DAY
  }

  predicate LocationsAgree(a: Posting, b: Posting) {
    a.city == b.city
  }

  ghost predicate Matches(earlier: Posting, candidate: Posting, threshold: real) {
    LocationsAgree(earlier, candidate) && TitleSimilarity.Similarity(earlier.title, candidate.title) >= threshold
  }

  // ----- the specification: brute force over all earlier postings

  predicate Below(js: seq<nat>, n: nat) {
    forall k :: 0 <= k < |js| ==> js[k] < n
  }

  /** Positions before `upTo` inside the window of `s[i]`, oldest first. */
  function InWindow(s: seq<Posting>, i: nat, upTo: nat, windowDays: int): (js: seq<nat>)
    requires upTo <= i < |s|
    ensures Below(js, upTo)
  {
    if upTo == 0 then []
    else
      var before := InWindow(s, i, upTo - 1, windowDays);
      if WithinWindow(s[upTo - 1], s[i], windowDays) then before + [upTo - 1] else before
  }

  function Newest(js: seq<nat>, n: nat): seq<nat> {
    if |js| <= n then js else js[|js| - n..]
  }

  ghost function Oldest(s: seq<Posting>, i: nat, js: seq<nat>, threshold: real): (r: Option<nat>)
    requires i < |s| && Below(js, i)
    ensures r.Some? ==> r.value < i
  {
    if js == [] then None
    else if Matches(s[js[0]], s[i], threshold) then Some(js[0])
    else Oldest(s, i, js[1..], threshold)
  }

  ghost function Canonical(s: seq<Posting>, i: nat, windowDays: int, max: nat, threshold: real): (r: Option<nat>)
    requires i < |s|
    ensures r.Some? ==> r.value < i
  {
    Oldest(s, i, Newest(InWindow(s, i, i, windowDays), max), threshold)
  }

  ghost function Shadow(s: seq<Posting>, i: nat, windowDays: int, max: nat, threshold: real): seq<Candidate>
    requires i < |s|
  {
    match Canonical(s, i, windowDays, max, threshold)
    case None => []
    case Some(j) => [Candidate(s[i], s[j], TitleSimilarity.Similarity(s[j].title, s[i].title))]
  }

  /** What a group reports for its first `n` postings, and how many were cut short. */
  ghost function Report(s: seq<Posting>, n: nat, windowDays: int, max: nat, threshold: real): seq<Candidate>
    requires n <= |s|
  {
    if n == 0 then []
    else Report(s, n - 1, windowDays, max, threshold) + Shadow(s, n - 1, windowDays, max, threshold)
  }

  ghost function CutShort(s: seq<Posting>, n: nat, windowDays: int, max: nat): nat
    requires n <= |s|
  {
    if n == 0 then 0
    else CutShort(s, n - 1, windowDays, max) + if |InWindow(s, n - 1, n - 1, windowDays)| > max then 1 else 0
  }

  // ----- on postings in order of time, the window is a range

  predicate InOrder(s: seq<Posting>) {
    forall i, j :: 0 <= i < j < |s| ==> s[i].firstSeenAt <= s[j].firstSeenAt
  }

  function Range(lo: nat, hi: nat): seq<nat>
    requires lo <= hi
  {
    seq(hi - lo, k requires 0 <= k < hi - lo => lo + k)
  }

  /** Everything before `start` is too old for `s[i]`, nothing from `start` on is. */
  predicate WindowStart(s: seq<Posting>, i: nat, start: nat, windowDays: int)
    requires i < |s|
  {
    && start <= i
    && (forall j :: 0 <= j < start ==> !WithinWindow(s[j], s[i], windowDays))
    && (forall j :: start <= j < i ==> WithinWindow(s[j], s[i], windowDays))
  }

  predicate TooOldBefore(s: seq<Posting>, i: nat, start: nat, windowDays: int) {
    start <= i && (i < |s| ==> forall j :: 0 <= j < start ==> !WithinWindow(s[j], s[i], windowDays))
  }

  lemma {:induction false} WindowIsRange(s: seq<Posting>, i: nat, start: nat, upTo: nat, windowDays: int)
    requires upTo <= i < |s| && WindowStart(s, i, start, windowDays)
    ensures InWindow(s, i, upTo, windowDays) == if upTo <= start then [] else Range(start, upTo)
  {
    if upTo > 0 {
      WindowIsRange(s, i, start, upTo - 1, windowDays);
    }
  }

  lemma NewestOfRange(lo: nat, hi: nat, n: nat)
    requires lo <= hi
    ensures Newest(Range(lo, hi), n) == Range(if hi - n > lo then hi - n else lo, hi)
  {
  }

  // ----- the scan

  /** `find`: the oldest match among the slice; at most one comparison per element. */
  method FindCanonical(s: seq<Posting>, i: nat, lo: nat, threshold: real) returns (found: Option<nat>, comparisons: nat)
    requires lo <= i < |s|
    ensures found == Oldest(s, i, Range(lo, i), threshold)
    ensures comparisons <= i - lo
  {
    comparisons := 0;
    var k := lo;
    while k < i
      invariant lo <= k <= i && comparisons <= k - lo
      invariant Oldest(s, i, Range(lo, i), threshold) == Oldest(s, i, Range(k, i), threshold)
    {
      assert Range(k, i)[1..] == Range(k + 1, i) && Range(k, i)[0] == k;
      if LocationsAgree(s[k], s[i]) {
        var similarity := TitleSimilarity.ComputeTitleSimilarity(s[k].title, s[i].title);
        comparisons := comparisons + 1;
        if similarity >= threshold {
          return Some(k), comparisons;
        }
      }
      k := k + 1;
    }
    return None, comparisons;
  }

  /** The window's left edge only ever moves right. */
  method AdvanceWindow(s: seq<Posting>, i: nat, start: nat, windowDays: int) returns (windowStart: nat)
    requires i < |s| && InOrder(s) && TooOldBefore(s, i, start, windowDays)
    ensures start <= windowStart && WindowStart(s, i, windowStart, windowDays)
  {
    windowStart := start;
    while windowStart < i && !WithinWindow(s[windowStart], s[i], windowDays)
      invariant start <= windowStart <= i
      invariant forall j :: 0 <= j < windowStart ==> !WithinWindow(s[j], s[i], windowDays)
    {
      windowStart := windowStart + 1;
    }
    forall j | windowStart <= j < i
      ensures WithinWindow(s[j], s[i], windowDays)
    {
      assert s[windowStart].firstSeenAt <= s[j].firstSeenAt <= s[i].firstSeenAt;
    }
  }

  /** One posting against the earlier ones; the similarity of a match is computed once more for the report. */
  method ScanOne(s: seq<Posting>, i: nat, start: nat, windowDays: int, max: nat, threshold: real)
    returns (windowStart: nat, cut: bool, shadow: seq<Candidate>, comparisons: nat)
    requires i < |s| && InOrder(s) && TooOldBefore(s, i, start, windowDays)
    ensures WindowStart(s, i, windowStart, windowDays)
    ensures cut <==> |InWindow(s, i, i, windowDays)| > max
    ensures shadow == Shadow(s, i, windowDays, max, threshold)
    ensures comparisons <= max + 1
  {
    windowStart := AdvanceWindow(s, i, start, windowDays);
    WindowIsRange(s, i, windowStart, i, windowDays);
    NewestOfRange(windowStart, i, max);
    hide WindowStart, InWindow, Newest, Oldest, Range, WithinWindow, InOrder;
    cut := i - windowStart > max;
    var lo := if i - max > windowStart then i - max else windowStart;
    var canonical;
    canonical, comparisons := FindCanonical(s, i, lo, threshold);
    shadow := [];
    if canonical.Some? {
      var similarity := TitleSimilarity.ComputeTitleSimilarity(s[canonical.value].title, s[i].title);
      comparisons := comparisons + 1;
      shadow := [Candidate(s[i], s[canonical.value], similarity)];
    }
  }

  /** `n` postings of at most `max` comparisons each, and one more for the report. */
  ghost function Allowed(n: nat, max: nat): nat {
    n * (max + 1)
  }

  lemma MoreAllowed(a: nat, b: nat, max: nat)
    ensures Allowed(a, max) + Allowed(b, max) == Allowed(a + b, max)
    ensures a <= b ==> Allowed(a, max) <= Allowed(b, max)
  {
  }

  lemma FromTheStart(s: seq<Posting>, windowDays: int)
    ensures TooOldBefore(s, 0, 0, windowDays)
  {
  }

  lemma StillTooOld(s: seq<Posting>, i: nat, start: nat, windowDays: int)
    requires InOrder(s) && i < |s| && WindowStart(s, i, start, windowDays)
    ensures TooOldBefore(s, i + 1, start, windowDays)
  {
  }

  /** One company group, oldest first; `seen` is always the group's processed prefix. */
  method ScanGroup(s: seq<Posting>, windowDays: int, max: nat, threshold: real)
    returns (shadows: seq<Candidate>, truncated: nat, comparisons: nat)
    requires InOrder(s)
    ensures shadows == Report(s, |s|, windowDays, max, threshold)
    ensures truncated == CutShort(s, |s|, windowDays, max)
    ensures comparisons <= Allowed(|s|, max)
  {
    hide Shadow, InWindow, WindowStart, TooOldBefore, InOrder;
    shadows, truncated, comparisons := [], 0, 0;
    var windowStart: nat := 0;
    FromTheStart(s, windowDays);
    var i := 0;
    while i < |s|
      invariant 0 <= i <= |s| && TooOldBefore(s, i, windowStart, windowDays)
      invariant shadows == Report(s, i, windowDays, max, threshold)
      invariant truncated == CutShort(s, i, windowDays, max)
      invariant comparisons <= Allowed(i, max)
    {
      var cut, shadow, compared;
      windowStart, cut, shadow, compared := ScanOne(s, i, windowStart, windowDays, max, threshold);
      shadows := shadows + shadow;
      if cut {
        truncated := truncated + 1;
      }
      comparisons := comparisons + compared;
      MoreAllowed(i, 1, max);
      StillTooOld(s, i, windowStart, windowDays);
      i := i + 1;
    }
  }

  // ----- what the newest bounded slice of the window is

  /** An earlier posting that is in the window, recent enough for the bound, and a match. */
  ghost predicate Eligible(s: seq<Posting>, i: nat, j: nat, windowDays: int, max: nat, threshold: real)
    requires i < |s|
  {
    && j < i && i - j <= max
    && -windowDays * 86_400_000 <= s[i].firstSeenAt - s[j].firstSeenAt <= windowDays * 86_400_000
    && ((s[j].city.None? && s[i].city.None?)
        || (s[j].city.Some? && s[i].city.Some? && s[j].city.value == s[i].city.value))
    && TitleSimilarity.Similarity(s[j].title, s[i].title) >= threshold
  }

  lemma {:induction false} OldestOfRange(s: seq<Posting>, i: nat, lo: nat, threshold: real)
    requires lo <= i < |s|
    ensures match Oldest(s, i, Range(lo, i), threshold)
            case Some(j) => lo <= j < i && Matches(s[j], s[i], threshold)
                            && forall k :: lo <= k < j ==> !Matches(s[k], s[i], threshold)
            case None => forall k :: lo <= k < i ==> !Matches(s[k], s[i], threshold)
    decreases i - lo
  {
    hide Matches;
    if lo < i {
      assert Range(lo, i)[1..] == Range(lo + 1, i) && Range(lo, i)[0] == lo;
      OldestOfRange(s, i, lo + 1, threshold);
    }
  }

  lemma {:induction false} StartOfWindow(s: seq<Posting>, i: nat, from: nat, windowDays: int) returns (start: nat)
    requires InOrder(s) && from <= i < |s|
    requires forall j :: from <= j < i ==> WithinWindow(s[j], s[i], windowDays)
    ensures WindowStart(s, i, start, windowDays)
  {
    if from == 0 || !WithinWindow(s[from - 1], s[i], windowDays) {
      start := from;
      forall j | 0 <= j < from
        ensures !WithinWindow(s[j], s[i], windowDays)
      {
        assert s[j].firstSeenAt <= s[from - 1].firstSeenAt <= s[i].firstSeenAt;
      }
    } else {
      start := StartOfWindow(s, i, from - 1, windowDays);
    }
  }

  /** On a group in order of time, the canonical posting is the oldest eligible one. */
  lemma CanonicalIsOldestEligible(s: seq<Posting>, i: nat, windowDays: int, max: nat, threshold: real)
    requires InOrder(s) && i < |s|
    ensures match Canonical(s, i, windowDays, max, threshold)
            case Some(j) => Eligible(s, i, j, windowDays, max, threshold)
                            && forall k: nat :: k < j ==> !Eligible(s, i, k, windowDays, max, threshold)
            case None => forall k: nat :: !Eligible(s, i, k, windowDays, max, threshold)
  {
    var start := StartOfWindow(s, i, i, windowDays);
    WindowIsRange(s, i, start, i, windowDays);
    NewestOfRange(start, i, max);
    OldestOfRange(s, i, if i - max > start then i - max else start, threshold);
    forall j: nat | j < i
      ensures WithinWindow(s[j], s[i], windowDays) <==>
              -windowDays * 86_400_000 <= s[i].firstSeenAt - s[j].firstSeenAt <= windowDays * 86_400_000
    {
    }
  }

  // ----- groups

  datatype Key = Key(words: seq<string>)

  function KeyFor(p: Posting): Key {
    Key(KeyOf(p.company))
  }

  function GroupOf(active: seq<Posting>, key: Key): seq<Posting> {
    if active == [] then []
    else
      var before := GroupOf(active[..|active| - 1], key);
      var last := active[|active| - 1];
      if KeyFor(last) == key then before + [last] else before
  }

  lemma GroupOneMore(active: seq<Posting>, p: Posting, key: Key)
    ensures GroupOf(active + [p], key)
         == GroupOf(active, key) + if KeyFor(p) == key then [p] else []
  {
    assert (active + [p])[..|active|] == active;
  }

  /** The companies in the order they first occur. */
  function KeyOrder(active: seq<Posting>): seq<Key> {
    if active == [] then []
    else
      var before := KeyOrder(active[..|active| - 1]);
      var key := KeyFor(active[|active| - 1]);
      if key in before then before else before + [key]
  }

  predicate DistinctKeys(order: seq<Key>) {
    forall i, j :: 0 <= i < j < |order| ==> order[i] != order[j]
  }

  ghost predicate Grouped(active: seq<Posting>, order: seq<Key>, groups: map<Key, seq<Posting>>) {
    && order == KeyOrder(active) && DistinctKeys(order)
    && (forall key :: key in order <==> key in groups)
    && (forall key :: key in groups ==> groups[key] == GroupOf(active, key))
    && (forall key :: key !in groups ==> GroupOf(active, key) == [])
  }

  lemma OrderOneMore(active: seq<Posting>, p: Posting)
    ensures KeyOrder(active + [p])
         == if KeyFor(p) in KeyOrder(active) then KeyOrder(active) else KeyOrder(active) + [KeyFor(p)]
  {
    assert (active + [p])[..|active|] == active;
  }

  lemma GroupedOneMore(active: seq<Posting>, p: Posting, order: seq<Key>,
                       groups: map<Key, seq<Posting>>)
    requires Grouped(active, order, groups)
    ensures var key := KeyFor(p);
            if key in groups then Grouped(active + [p], order, groups[key := groups[key] + [p]])
            else Grouped(active + [p], order + [key], groups[key := [p]])
  {
    hide KeyOrder, GroupOf;
    OrderOneMore(active, p);
    forall key
      ensures GroupOf(active + [p], key) == GroupOf(active, key) + if KeyFor(p) == key then [p] else []
    {
      GroupOneMore(active, p, key);
    }
  }

  lemma GroupedNothing()
    ensures Grouped([], [], map[])
  {
  }

  /** `byCompany`, with its insertion order. */
  method GroupByCompany(active: seq<Posting>)
    returns (order: seq<Key>, groups: map<Key, seq<Posting>>)
    ensures Grouped(active, order, groups)
  {
    hide Grouped;
    order, groups := [], map[];
    var i := 0;
    GroupedNothing();
    assert active[..0] == [];
    while i < |active|
      invariant 0 <= i <= |active| && Grouped(active[..i], order, groups)
    {
      var words := CompanyKey(active[i].company);
      var key := Key(words);
      assert key == KeyFor(active[i]);
      assert active[..i + 1] == active[..i] + [active[i]];
      GroupedOneMore(active[..i], active[i], order, groups);
      if key in groups {
        groups := groups[key := groups[key] + [active[i]]];
      } else {
        groups, order := groups[key := [active[i]]], order + [key];
      }
      i := i + 1;
    }
    assert active[..i] == active;
  }

  // ----- the stable sort by first sighting

  function Inserted(s: seq<Posting>, p: Posting): seq<Posting> {
    if s == [] || s[|s| - 1].firstSeenAt <= p.firstSeenAt then s + [p]
    else Inserted(s[..|s| - 1], p) + [s[|s| - 1]]
  }

  function ByFirstSeen(s: seq<Posting>): seq<Posting> {
    if s == [] then [] else Inserted(ByFirstSeen(s[..|s| - 1]), s[|s| - 1])
  }

  /** The postings first seen at `t`, in the order they stand. */
  function SeenAt(s: seq<Posting>, t: int): seq<Posting> {
    if s == [] then []
    else
      var before := SeenAt(s[..|s| - 1], t);
      if s[|s| - 1].firstSeenAt == t then before + [s[|s| - 1]] else before
  }

  lemma SeenAtLast(s: seq<Posting>, p: Posting, t: int)
    ensures SeenAt(s + [p], t) == SeenAt(s, t) + if p.firstSeenAt == t then [p] else []
  {
  }

  lemma {:induction false} InsertedInOrder(s: seq<Posting>, p: Posting)
    requires InOrder(s)
    ensures InOrder(Inserted(s, p)) && |Inserted(s, p)| == |s| + 1
    ensures forall k :: 0 <= k < |Inserted(s, p)| ==> Inserted(s, p)[k] == p || Inserted(s, p)[k] in s
  {
    if s != [] && s[|s| - 1].firstSeenAt > p.firstSeenAt {
      var front, last := s[..|s| - 1], s[|s| - 1];
      InsertedInOrder(front, p);
      assert forall k :: 0 <= k < |s| - 1 ==> front[k].firstSeenAt <= last.firstSeenAt;
    }
  }

  lemma {:induction false} InsertedStably(s: seq<Posting>, p: Posting, t: int)
    requires InOrder(s)
    ensures SeenAt(Inserted(s, p), t) == SeenAt(s, t) + if p.firstSeenAt == t then [p] else []
  {
    if s == [] || s[|s| - 1].firstSeenAt <= p.firstSeenAt {
      SeenAtLast(s, p, t);
    } else {
      var front, last := s[..|s| - 1], s[|s| - 1];
      InsertedStably(front, p, t);
      SeenAtLast(Inserted(front, p), last, t);
      if last.firstSeenAt == t {
        assert p.firstSeenAt < t;
      }
    }
  }

  /** Sorted by first sighting, nothing lost, and ties keep their order. */
  lemma {:induction false} ByFirstSeenIsStable(s: seq<Posting>, t: int)
    ensures InOrder(ByFirstSeen(s)) && |ByFirstSeen(s)| == |s|
    ensures SeenAt(ByFirstSeen(s), t) == SeenAt(s, t)
  {
    if s != [] {
      ByFirstSeenIsStable(s[..|s| - 1], t);
      InsertedInOrder(ByFirstSeen(s[..|s| - 1]), s[|s| - 1]);
      InsertedStably(ByFirstSeen(s[..|s| - 1]), s[|s| - 1], t);
    }
  }

  // ----- the whole pass

  ghost function ReportAll(active: seq<Posting>, order: seq<Key>, windowDays: int, max: nat, threshold: real):
    seq<Candidate>
  {
    if order == [] then []
    else
      var group := ByFirstSeen(GroupOf(active, order[|order| - 1]));
      ReportAll(active, order[..|order| - 1], windowDays, max, threshold)
      + Report(group, |group|, windowDays, max, threshold)
  }

  ghost function CutShortAll(active: seq<Posting>, order: seq<Key>, windowDays: int, max: nat): nat {
    if order == [] then 0
    else
      var group := ByFirstSeen(GroupOf(active, order[|order| - 1]));
      CutShortAll(active, order[..|order| - 1], windowDays, max) + CutShort(group, |group|, windowDays, max)
  }

  ghost function SizeAll(active: seq<Posting>, order: seq<Key>): nat {
    if order == [] then 0
    else SizeAll(active, order[..|order| - 1]) + |GroupOf(active, order[|order| - 1])|
  }

  lemma {:induction false} SizeOneMore(active: seq<Posting>, p: Posting, order: seq<Key>)
    requires DistinctKeys(order)
    ensures SizeAll(active + [p], order) == SizeAll(active, order) + if KeyFor(p) in order then 1 else 0
  {
    if order != [] {
      var front, last := order[..|order| - 1], order[|order| - 1];
      SizeOneMore(active, p, front);
      GroupOneMore(active, p, last);
      assert order == front + [last];
      assert last !in front;
    }
  }

  lemma {:induction false} SizeOfNothing(order: seq<Key>)
    ensures SizeAll([], order) == 0
  {
    if order != [] {
      SizeOfNothing(order[..|order| - 1]);
    }
  }

  lemma {:induction false} GroupsFit(active: seq<Posting>, order: seq<Key>)
    requires DistinctKeys(order)
    ensures SizeAll(active, order) <= |active|
  {
    if active == [] {
      SizeOfNothing(order);
    } else {
      GroupsFit(active[..|active| - 1], order);
      SizeOneMore(active[..|active| - 1], active[|active| - 1], order);
      assert active == active[..|active| - 1] + [active[|active| - 1]];
    }
  }

  lemma OneMoreCompany(active: seq<Posting>, order: seq<Key>, groups: map<Key, seq<Posting>>,
                       i: nat, windowDays: int, max: nat, threshold: real)
    requires i < |order| && Grouped(active, order, groups)
    ensures order[i] in groups
    ensures var group := ByFirstSeen(groups[order[i]]);
            && ReportAll(active, order[..i + 1], windowDays, max, threshold)
               == ReportAll(active, order[..i], windowDays, max, threshold)
                  + Report(group, |group|, windowDays, max, threshold)
            && CutShortAll(active, order[..i + 1], windowDays, max)
               == CutShortAll(active, order[..i], windowDays, max) + CutShort(group, |group|, windowDays, max)
    ensures SizeAll(active, order[..i + 1]) == SizeAll(active, order[..i]) + |groups[order[i]]|
  {
    hide Report, CutShort, ByFirstSeen, GroupOf, KeyOrder, DistinctKeys;
    assert order[..i + 1][..i] == order[..i];
  }

  method ScanCompany(group: seq<Posting>, windowDays: int, max: nat, threshold: real)
    returns (shadows: seq<Candidate>, truncated: nat, comparisons: nat)
    ensures var s := ByFirstSeen(group);
            shadows == Report(s, |s|, windowDays, max, threshold) && truncated == CutShort(s, |s|, windowDays, max)
    ensures comparisons <= Allowed(|group|, max)
  {
    hide Report, CutShort;
    var sorted := ByFirstSeen(group);
    ByFirstSeenIsStable(group, 0);
    shadows, truncated, comparisons := ScanGroup(sorted, windowDays, max, threshold);
  }

  datatype Tally = Tally(shadows: seq<Candidate>, truncated: nat, comparisons: nat)

  /** The tally of the companies in `order`. */
  ghost predicate Tallied(active: seq<Posting>, order: seq<Key>, windowDays: int, max: nat, threshold: real, t: Tally) {
    && t.shadows == ReportAll(active, order, windowDays, max, threshold)
    && t.truncated == CutShortAll(active, order, windowDays, max)
    && t.comparisons <= Allowed(SizeAll(active, order), max)
  }

  method ScanNext(active: seq<Posting>, order: seq<Key>, groups: map<Key, seq<Posting>>, i: nat,
                  windowDays: int, max: nat, threshold: real, t: Tally)
    returns (next: Tally)
    requires i < |order| && Grouped(active, order, groups)
    requires Tallied(active, order[..i], windowDays, max, threshold, t)
    ensures Tallied(active, order[..i + 1], windowDays, max, threshold, next)
  {
    hide Report, CutShort, ByFirstSeen, ReportAll, CutShortAll, SizeAll, Allowed, Grouped, GroupOf, InOrder;
    OneMoreCompany(active, order, groups, i, windowDays, max, threshold);
    var found, cut, compared := ScanCompany(groups[order[i]], windowDays, max, threshold);
    MoreAllowed(SizeAll(active, order[..i]), |groups[order[i]]|, max);
    next := Tally(t.shadows + found, t.truncated + cut, t.comparisons + compared);
  }

  method ScanCompanies(active: seq<Posting>, order: seq<Key>, groups: map<Key, seq<Posting>>,
                       windowDays: int, max: nat, threshold: real)
    returns (t: Tally)
    requires Grouped(active, order, groups)
    ensures Tallied(active, order, windowDays, max, threshold, t)
  {
    t := Tally([], 0, 0);
    assert Tallied(active, order[..0], windowDays, max, threshold, t);
    hide Tallied, Grouped;
    var i := 0;
    while i < |order|
      invariant 0 <= i <= |order|
      invariant Tallied(active, order[..i], windowDays, max, threshold, t)
    {
      t := ScanNext(active, order, groups, i, windowDays, max, threshold, t);
      i := i + 1;
    }
    assert order[..i] == order;
  }

  function MaxComparisons(config: Config): (max: nat)
    ensures max >= 1 && (config.maxComparisons.None? ==> max == 500)
    ensures config.maxComparisons.Some? && config.maxComparisons.value >= 1 ==> max == config.maxComparisons.value
    ensures config.maxComparisons.Some? && config.maxComparisons.value < 1 ==> max == 1
  {
    var bound := if config.maxComparisons.Some? then config.maxComparisons.value else DEFAULT_MAX_COMPARISONS;
    if bound < 1 then 1 else bound
  }

  /**
   * dedupSimilarPostings: for every company, what brute force reports on its postings in
   * order of time; no posting is marked a duplicate; and the work is linear in the bound.
   */
  method DedupSimilarPostings(active: seq<Posting>, config: Config)
    returns (order: seq<Key>, t: Tally)
    ensures order == KeyOrder(active) && DistinctKeys(order)
    ensures forall key :: GroupOf(active, key) != [] ==> key in order
    ensures t.shadows == ReportAll(active, order, config.windowDays, MaxComparisons(config), config.similarityThreshold)
    ensures t.truncated == CutShortAll(active, order, config.windowDays, MaxComparisons(config))
    ensures t.comparisons <= |active| * (MaxComparisons(config) + 1)
  {
    var groups;
    order, groups := GroupByCompany(active);
    var max := MaxComparisons(config);
    t := ScanCompanies(active, order, groups, config.windowDays, max, config.similarityThreshold);
    GroupsFit(active, order);
    MoreAllowed(SizeAll(active, order), |active|, max);
  }
}
