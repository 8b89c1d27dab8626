/** The Dice coefficient over character bigrams of the significant words of two titles. */
module TitleSimilarity {
  import opened TitleWords

  const STOPWORDS: set<string> := {
    "estagio", "estagiario", "estagiaria", "trainee", "pessoa", "vaga", "de", "em", "para",
    "na", "no", "um", "uma", "e", "a", "o"
  }

  // ----- significantTokens

  /** split(" "): always at least one piece, possibly empty ones. */
  function Split(s: string): (pieces: seq<string>)
    ensures pieces != [] && forall p :: p in pieces ==> ' ' !in p
  {
    if s == "" then [""]
    else
      var before := Split(s[..|s| - 1]);
      var last := s[|s| - 1];
      if last == ' ' then before + [""]
      else before[..|before| - 1] + [before[|before| - 1] + [last]]
  }

  function Significant(pieces: seq<string>): seq<Token>
    requires forall p :: p in pieces ==> ' ' !in p
  {
    if pieces == [] then []
    else
      var before := Significant(pieces[..|pieces| - 1]);
      var last := pieces[|pieces| - 1];
      if last != "" && last !in STOPWORDS then before + [last] else before
  }

  function SignificantTokens(title: seq<Symbol>): seq<Token> {
    Significant(Split(NormalizeTitle(title)))
  }

  /** The last piece, longer by `t`. */
  function Appended(pieces: seq<string>, t: string): seq<string>
    requires pieces != []
  {
    pieces[..|pieces| - 1] + [pieces[|pieces| - 1] + t]
  }

  lemma AppendedTwice(pieces: seq<string>, t: string, u: string)
    requires pieces != []
    ensures Appended(Appended(pieces, t), u) == Appended(pieces, t + u)
    ensures Appended(pieces, "") == pieces
  {
    var last := pieces[|pieces| - 1];
    assert Appended(pieces, t)[..|pieces| - 1] == pieces[..|pieces| - 1];
    assert last + t + u == last + (t + u) && last + "" == last;
  }

  lemma SplitOneMore(s: string, c: char)
    ensures Split(s + [c]) == if c == ' ' then Split(s) + [""] else Appended(Split(s), [c])
  {
    assert (s + [c])[..|s|] == s;
  }

  lemma SplitAppendOne(s: string, t: string, c: char)
    requires c != ' ' && Split(s + t) == Appended(Split(s), t)
    ensures Split(s + (t + [c])) == Appended(Split(s), t + [c])
  {
    assert s + (t + [c]) == (s + t) + [c];
    SplitOneMore(s + t, c);
    AppendedTwice(Split(s), t, [c]);
  }

  lemma {:induction false} SplitAppend(s: string, t: string)
    requires ' ' !in t
    ensures Split(s + t) == Appended(Split(s), t)
  {
    if t == "" {
      assert s + t == s;
      AppendedTwice(Split(s), t, t);
    } else {
      var front, c := t[..|t| - 1], t[|t| - 1];
      assert front + [c] == t;
      SplitAppend(s, front);
      hide Split, Appended;
      SplitAppendOne(s, front, c);
    }
  }

  lemma SplitNextWord(text: string, words: seq<Token>, t: Token)
    requires Split(text) == words
    ensures Split(text + " " + t) == words + [t]
  {
    SplitOneMore(text, ' ');
    SplitAppend(text + " ", t);
    hide Split;
    assert (words + [""])[..|words|] == words && "" + t == t;
  }

  lemma {:induction false} SplitJoin(words: seq<Token>)
    ensures Split(Join(words)) == if words == [] then [""] else words
  {
    if |words| == 1 {
      SplitAppend("", words[0]);
      assert Split("") == [""];
      hide Split;
      assert "" + words[0] == words[0];
    } else if words != [] {
      var front, last := words[..|words| - 1], words[|words| - 1];
      SplitJoin(front);
      assert front + [last] == words;
      SplitNextWord(Join(front), front, last);
    }
  }

  /** The significant words are the words of the title that are not stop words. */
  lemma SignificantAreWords(title: seq<Symbol>)
    ensures SignificantTokens(title) == Significant(Tokens(title))
  {
    NormalizedIsJoined(title, false);
    SplitJoin(Tokens(title));
    assert [""][..0] == [];
  }

  lemma {:induction false} SignificantCount(pieces: seq<string>, t: Token)
    requires forall p :: p in pieces ==> ' ' !in p
    ensures multiset(Significant(pieces))[t] == if t in STOPWORDS then 0 else multiset(pieces)[t]
  {
    if pieces != [] {
      var front, last := pieces[..|pieces| - 1], pieces[|pieces| - 1];
      SignificantCount(front, t);
      assert pieces == front + [last];
    }
  }

  lemma {:induction false} SignificantPermutes(a: seq<string>, b: seq<string>)
    requires forall p :: p in a ==> ' ' !in p
    requires forall p :: p in b ==> ' ' !in p
    requires multiset(a) == multiset(b)
    ensures multiset(Significant(a)) == multiset(Significant(b))
  {
    forall t: Token
      ensures multiset(Significant(a))[t] == multiset(Significant(b))[t]
    {
      SignificantCount(a, t);
      SignificantCount(b, t);
    }
  }

  // ----- sort()

  predicate Le(s: string, t: string) {
    if s == "" then true
    else if t == "" then false
    else s[0] < t[0] || (s[0] == t[0] && Le(s[1..], t[1..]))
  }

  lemma {:induction false} LeTotal(s: string, t: string)
    ensures Le(s, t) || Le(t, s)
    ensures Le(s, t) && Le(t, s) ==> s == t
  {
    if s != "" && t != "" && s[0] == t[0] {
      LeTotal(s[1..], t[1..]);
      assert s == [s[0]] + s[1..] && t == [t[0]] + t[1..];
    }
  }

  lemma {:induction false} LeTransitive(s: string, t: string, u: string)
    requires Le(s, t) && Le(t, u)
    ensures Le(s, u)
  {
    if s != "" && s[0] == t[0] == u[0] {
      LeTransitive(s[1..], t[1..], u[1..]);
    }
  }

  predicate Ascending(ts: seq<Token>) {
    forall i, j :: 0 <= i < j < |ts| ==> Le(ts[i], ts[j])
  }

  lemma LastIsGreatest(ts: seq<Token>, t: Token)
    requires Ascending(ts) && t in ts
    ensures Le(t, ts[|ts| - 1])
  {
    LeTotal(t, t);
    var i :| 0 <= i < |ts| && ts[i] == t;
  }

  function Inserted(ts: seq<Token>, t: Token): seq<Token> {
    if ts == [] || Le(ts[|ts| - 1], t) then ts + [t]
    else Inserted(ts[..|ts| - 1], t) + [ts[|ts| - 1]]
  }

  function Sorted(ts: seq<Token>): seq<Token> {
    if ts == [] then [] else Inserted(Sorted(ts[..|ts| - 1]), ts[|ts| - 1])
  }

  lemma {:induction false} InsertedPermutes(ts: seq<Token>, t: Token)
    ensures multiset(Inserted(ts, t)) == multiset(ts) + multiset{t}
  {
    if ts != [] && !Le(ts[|ts| - 1], t) {
      InsertedPermutes(ts[..|ts| - 1], t);
      assert ts == ts[..|ts| - 1] + [ts[|ts| - 1]];
    }
  }

  lemma AscendingWith(ts: seq<Token>, t: Token)
    requires Ascending(ts) && forall x :: x in ts ==> Le(x, t)
    ensures Ascending(ts + [t])
  {
  }

  lemma {:induction false} InsertedAscends(ts: seq<Token>, t: Token)
    requires Ascending(ts)
    ensures Ascending(Inserted(ts, t))
  {
    if ts != [] {
      var front, last := ts[..|ts| - 1], ts[|ts| - 1];
      forall x | x in ts
        ensures Le(x, last)
      {
        LastIsGreatest(ts, x);
      }
      if Le(last, t) {
        forall x | x in ts
          ensures Le(x, t)
        {
          LeTransitive(x, last, t);
        }
        AscendingWith(ts, t);
      } else {
        InsertedAscends(front, t);
        InsertedPermutes(front, t);
        LeTotal(last, t);
        forall x | x in Inserted(front, t)
          ensures Le(x, last)
        {
          assert x in multiset(Inserted(front, t));
        }
        AscendingWith(Inserted(front, t), last);
      }
    }
  }

  lemma {:induction false} SortedSorts(ts: seq<Token>)
    ensures Ascending(Sorted(ts)) && multiset(Sorted(ts)) == multiset(ts)
  {
    if ts != [] {
      SortedSorts(ts[..|ts| - 1]);
      InsertedAscends(Sorted(ts[..|ts| - 1]), ts[|ts| - 1]);
      InsertedPermutes(Sorted(ts[..|ts| - 1]), ts[|ts| - 1]);
      assert ts == ts[..|ts| - 1] + [ts[|ts| - 1]];
    }
  }

  lemma WithoutLast(ts: seq<Token>)
    requires ts != []
    ensures multiset(ts[..|ts| - 1]) == multiset(ts) - multiset{ts[|ts| - 1]}
    ensures ts == ts[..|ts| - 1] + [ts[|ts| - 1]]
  {
    assert ts == ts[..|ts| - 1] + [ts[|ts| - 1]];
  }

  /** There is only one way to sort. */
  lemma {:induction false} AscendingUnique(a: seq<Token>, b: seq<Token>)
    requires Ascending(a) && Ascending(b) && multiset(a) == multiset(b)
    ensures a == b
  {
    assert |a| == |multiset(a)| && |multiset(b)| == |b|;
    if a != [] {
      var x, y := a[|a| - 1], b[|b| - 1];
      assert x in multiset(b) && y in multiset(a);
      LastIsGreatest(a, y);
      LastIsGreatest(b, x);
      LeTotal(x, y);
      WithoutLast(a);
      WithoutLast(b);
      AscendingUnique(a[..|a| - 1], b[..|b| - 1]);
    }
  }

  function Basis(title: seq<Symbol>): string {
    Join(Sorted(SignificantTokens(title)))
  }

  // ----- bigrams

  function Bigrams(value: string): (r: seq<string>)
    ensures |r| == if |value| < 2 then |value| else |value| - 1
  {
    if |value| < 2 then if value != "" then [value] else []
    else seq(|value| - 1, i requires 0 <= i < |value| - 1 => value[i..i + 2])
  }

  method ComputeBigrams(value: string) returns (result: seq<string>)
    ensures result == Bigrams(value)
  {
    if |value| < 2 {
      return if value != "" then [value] else [];
    }
    result := [];
    var i := 0;
    while i < |value| - 1
      invariant 0 <= i <= |value| - 1 && |result| == i
      invariant forall k :: 0 <= k < i ==> result[k] == value[k..k + 2]
    {
      result := result + [value[i..i + 2]];
      i := i + 1;
    }
  }

  // ----- computeTitleSimilarity

  ghost function Dice(a: seq<string>, b: seq<string>): real
    requires a != [] || b != []
  {
    (2 * |multiset(a) * multiset(b)|) as real / (|a| + |b|) as real
  }

  /** The coefficient by its definition: no loops, no counting. */
  ghost function Similarity(a: seq<Symbol>, b: seq<Symbol>): real {
    if Basis(a) == "" && Basis(b) == "" then 0.0 else Dice(Bigrams(Basis(a)), Bigrams(Basis(b)))
  }

  lemma SharedOneMore(m: multiset<string>, n: multiset<string>, x: string)
    ensures |(m + multiset{x}) * n| == |m * n| + if m[x] < n[x] then 1 else 0
  {
    if m[x] < n[x] {
      assert (m + multiset{x}) * n == m * n + multiset{x};
    } else {
      assert (m + multiset{x}) * n == m * n;
    }
  }

  function CountOf(counts: map<string, nat>, x: string): nat {
    if x in counts then counts[x] else 0
  }

  method CountBigrams(b: seq<string>) returns (counts: map<string, nat>)
    ensures forall x :: CountOf(counts, x) == multiset(b)[x]
  {
    counts := map[];
    var i := 0;
    while i < |b|
      invariant 0 <= i <= |b|
      invariant forall x :: CountOf(counts, x) == multiset(b[..i])[x]
    {
      assert b[..i + 1] == b[..i] + [b[i]];
      counts := counts[b[i] := (if b[i] in counts then counts[b[i]] else 0) + 1];
      i := i + 1;
    }
    assert b[..i] == b;
  }

  function Less(n: nat, k: nat): nat {
    if k <= n then n - k else 0
  }

  /** The counts of `b` with those of `m` used up. */
  ghost predicate Left(counts: map<string, nat>, b: multiset<string>, m: multiset<string>) {
    forall x :: CountOf(counts, x) == Less(b[x], m[x])
  }

  lemma UseOne(counts: map<string, nat>, b: multiset<string>, m: multiset<string>, x: string)
    requires Left(counts, b, m)
    ensures CountOf(counts, x) > 0 <==> m[x] < b[x]
    ensures var next := if CountOf(counts, x) > 0 then counts[x := CountOf(counts, x) - 1] else counts;
            Left(next, b, m + multiset{x})
  {
  }

  /** Walks `a`, using up the counts of `b`. */
  method CountShared(a: seq<string>, b: seq<string>) returns (intersectionSize: nat)
    ensures intersectionSize == |multiset(a) * multiset(b)|
  {
    var counts := CountBigrams(b);
    intersectionSize := 0;
    var i := 0;
    ghost var used: multiset<string> := multiset{};
    assert used * multiset(b) == multiset{};
    assert Left(counts, multiset(b), used);
    hide Left, CountOf;
    while i < |a|
      invariant 0 <= i <= |a| && used == multiset(a[..i])
      invariant Left(counts, multiset(b), used)
      invariant intersectionSize == |used * multiset(b)|
    {
      var bigram := a[i];
      assert a[..i + 1] == a[..i] + [bigram];
      SharedOneMore(used, multiset(b), bigram);
      UseOne(counts, multiset(b), used, bigram);
      var remaining := CountOf(counts, bigram);
      if remaining > 0 {
        intersectionSize := intersectionSize + 1;
        counts := counts[bigram := remaining - 1];
      }
      used := used + multiset{bigram};
      i := i + 1;
    }
    assert a[..i] == a;
  }

  method ComputeTitleSimilarity(a: seq<Symbol>, b: seq<Symbol>) returns (r: real)
    ensures r == Similarity(a, b)
  {
    hide Sorted, SignificantTokens, Join, Bigrams;
    var significantA := Join(Sorted(SignificantTokens(a)));
    var significantB := Join(Sorted(SignificantTokens(b)));
    if significantA == "" && significantB == "" {
      return 0.0;
    }
    var bigramsA := ComputeBigrams(significantA);
    var bigramsB := ComputeBigrams(significantB);
    var intersectionSize := CountShared(bigramsA, bigramsB);
    var denominator := |bigramsA| + |bigramsB|;
    r := (2 * intersectionSize) as real / denominator as real;
  }

  // ----- what the coefficient promises

  lemma Symmetric(a: seq<Symbol>, b: seq<Symbol>)
    ensures Similarity(a, b) == Similarity(b, a)
  {
    var m, n := multiset(Bigrams(Basis(a))), multiset(Bigrams(Basis(b)));
    assert m * n == n * m;
  }

  lemma SharedIsPart(m: multiset<string>, n: multiset<string>)
    ensures |m * n| <= |m|
    ensures |m * n| == |m| <==> m <= n
  {
    assert m == m * n + (m - n);
    assert |m| == |m * n| + |m - n|;
    if m <= n {
      assert m * n == m;
    }
  }

  lemma Fraction(top: real, bottom: real)
    requires 0.0 <= top <= bottom && bottom > 0.0
    ensures 0.0 <= top / bottom <= 1.0
    ensures top / bottom == 1.0 <==> top == bottom
  {
    assert top / bottom * bottom == top;
  }

  lemma DiceBounds(x: seq<string>, y: seq<string>)
    requires x != [] || y != []
    ensures 0.0 <= Dice(x, y) <= 1.0
    ensures Dice(x, y) == 1.0 <==> multiset(x) == multiset(y)
  {
    var m, n := multiset(x), multiset(y);
    SharedIsPart(m, n);
    SharedIsPart(n, m);
    assert m * n == n * m;
    var shared := |m * n|;
    Fraction((2 * shared) as real, (|x| + |y|) as real);
  }

  /** Between 0 and 1, and 1 exactly for the same bigrams, at least one of them. */
  lemma UnitInterval(a: seq<Symbol>, b: seq<Symbol>)
    ensures 0.0 <= Similarity(a, b) <= 1.0
    ensures Similarity(a, b) == 1.0 <==>
              Bigrams(Basis(a)) != [] && multiset(Bigrams(Basis(a))) == multiset(Bigrams(Basis(b)))
  {
    var x, y := Bigrams(Basis(a)), Bigrams(Basis(b));
    assert x == [] <==> Basis(a) == "";
    assert y == [] <==> Basis(b) == "";
    hide Bigrams, Basis;
    if x != [] || y != [] {
      DiceBounds(x, y);
      hide Dice;
      assert |multiset(x)| == |x| && |multiset(y)| == |y|;
    }
  }

  /** Reordering the words of a title changes nothing. */
  lemma WordOrderIrrelevant(a: seq<Symbol>, a': seq<Symbol>, b: seq<Symbol>)
    requires multiset(Tokens(a)) == multiset(Tokens(a'))
    ensures Similarity(a, b) == Similarity(a', b) && Similarity(b, a) == Similarity(b, a')
  {
    SignificantAreWords(a);
    SignificantAreWords(a');
    var s, s' := SignificantTokens(a), SignificantTokens(a');
    SignificantPermutes(Tokens(a), Tokens(a'));
    SortedSorts(s);
    SortedSorts(s');
    AscendingUnique(Sorted(s), Sorted(s'));
  }
}
