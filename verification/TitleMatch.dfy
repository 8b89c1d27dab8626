/** Keyword matching by padded substrings, and the whole-word matching it amounts to. */
module TitleMatch {
  import opened TitleWords

  // ----- the source's tests, on strings

  ghost predicate OccursAt(text: string, part: string, i: int) {
    0 <= i <= i + |part| <= |text| && text[i..i + |part|] == part
  }

  /** String.prototype.includes. */
  ghost predicate Includes(text: string, part: string) {
    exists i :: OccursAt(text, part, i)
  }

  function Padded(s: string): string {
    " " + s + " "
  }

  ghost predicate TitleMatchesAny(title: seq<Symbol>, terms: seq<seq<Symbol>>) {
    var haystack := Padded(NormalizeTitle(title));
    exists term :: term in terms && NormalizeTitle(term) != "" && Includes(haystack, Padded(NormalizeTitle(term)))
  }

  ghost predicate KeywordMatchesText(text: seq<Symbol>, keyword: seq<Symbol>) {
    var spacedKeyword := NormalizeTitle(keyword);
    var collapsed := Padded(NormalizeCollapsingJoiners(text));
    var collapsedKeyword := NormalizeCollapsingJoiners(keyword);
    if spacedKeyword == "" then false
    else if !Includes(spacedKeyword, " ") then
      collapsedKeyword != "" && Includes(collapsed, Padded(collapsedKeyword))
    else
      || Includes(Padded(NormalizeTitle(text)), Padded(spacedKeyword))
      || (collapsedKeyword != "" && Includes(collapsed, Padded(collapsedKeyword)))
  }

  // ----- whole words

  ghost predicate SublistAt(part: seq<Token>, words: seq<Token>, k: int) {
    0 <= k <= k + |part| <= |words| && words[k..k + |part|] == part
  }

  /** `part` is a contiguous sublist of `words`. */
  ghost predicate Sublist(part: seq<Token>, words: seq<Token>) {
    exists k :: SublistAt(part, words, k)
  }

  /** A space before every word and one after the last. */
  function Spread(words: seq<Token>): string {
    if words == [] then " " else " " + words[0] + Spread(words[1..])
  }

  lemma {:induction false} SpreadAppend(words: seq<Token>, t: Token)
    ensures Spread(words + [t]) == Spread(words) + t + " "
  {
    if words == [] {
      assert ([t])[1..] == [];
    } else {
      SpreadAppend(words[1..], t);
      assert (words + [t])[1..] == words[1..] + [t];
    }
  }

  lemma {:induction false} PaddedIsSpread(words: seq<Token>)
    requires words != []
    ensures Padded(Join(words)) == Spread(words)
  {
    if |words| == 1 {
      assert words[1..] == [];
    } else {
      var front, last := words[..|words| - 1], words[|words| - 1];
      PaddedIsSpread(front);
      SpreadAppend(front, last);
      assert words == front + [last];
    }
  }

  // ----- a spread prefix is a prefix of the words

  /** Where a word ends is visible in the string. */
  lemma FirstWordsAgree(a: Token, b: Token, x: string, y: string)
    requires x != [] && x[0] == ' ' && y != [] && y[0] == ' '
    requires " " + a + x <= " " + b + y
    ensures a == b && x <= y
  {
    var s, t := " " + a + x, " " + b + y;
    assert s[1 + |a|] == ' ' && t[1 + |b|] == ' ';
    assert forall k :: 0 <= k < |a| ==> s[1 + k] == a[k] && s[1 + k] != ' ';
    assert forall k :: 0 <= k < |b| ==> t[1 + k] == b[k] && t[1 + k] != ' ';
    assert t[1 + |a|] == ' ';
    assert |a| >= |b|;
    assert s[1 + |b|] == t[1 + |b|];
    assert |a| == |b|;
    assert a == s[1..1 + |a|] && b == t[1..1 + |b|];
    assert x == s[1 + |a|..] && y == t[1 + |b|..];
  }

  lemma SpreadStarts(words: seq<Token>)
    ensures Spread(words) != [] && Spread(words)[0] == ' '
    ensures words == [] <==> |Spread(words)| == 1
  {
  }

  lemma {:induction false} SpreadPrefix(part: seq<Token>, words: seq<Token>)
    requires part != []
    ensures Spread(part) <= Spread(words) <==> part <= words
  {
    SpreadStarts(part);
    SpreadStarts(words);
    if words == [] {
    } else {
      var a, b := part[0], words[0];
      SpreadStarts(part[1..]);
      SpreadStarts(words[1..]);
      if Spread(part) <= Spread(words) {
        FirstWordsAgree(a, b, Spread(part[1..]), Spread(words[1..]));
      }
      if part[1..] != [] {
        SpreadPrefix(part[1..], words[1..]);
      }
      assert part == [a] + part[1..] && words == [b] + words[1..];
      if part <= words {
        assert a == b && part[1..] <= words[1..];
        assert Spread(words) == (" " + a) + Spread(words[1..]);
        assert Spread(part[1..]) <= Spread(words[1..]);
      }
    }
  }

  lemma SliceOfRest<T>(s: seq<T>, from: nat, i: nat, j: nat)
    requires from <= i <= j <= |s|
    ensures s[from..][i - from..j - from] == s[i..j]
  {
  }

  /** A spread list occurs in another at a space, hence at the start of a word. */
  lemma {:induction false} SpreadOccurs(part: seq<Token>, words: seq<Token>, i: nat) returns (k: nat)
    requires part != [] && OccursAt(Spread(words), Spread(part), i)
    ensures SublistAt(part, words, k)
  {
    SpreadStarts(part);
    if i == 0 {
      assert Spread(part) <= Spread(words);
      SpreadPrefix(part, words);
      k := 0;
    } else {
      SpreadStarts(words);
      assert words != [];
      var text, w, rest := Spread(words), words[0], Spread(words[1..]);
      assert text[i] == Spread(part)[0] == ' ';
      assert text == " " + w + rest;
      assert forall j :: 1 <= j <= |w| ==> text[j] == w[j - 1];
      assert i > |w|;
      var i' := i - 1 - |w|;
      assert rest == text[1 + |w|..];
      SliceOfRest(text, 1 + |w|, i, i + |Spread(part)|);
      k := SpreadOccurs(part, words[1..], i');
      assert words[k + 1..k + 1 + |part|] == words[1..][k..k + |part|];
      k := k + 1;
    }
  }

  lemma {:induction false} SublistOccurs(part: seq<Token>, words: seq<Token>, k: nat) returns (i: nat)
    requires part != [] && SublistAt(part, words, k)
    ensures OccursAt(Spread(words), Spread(part), i)
  {
    if k == 0 {
      SpreadPrefix(part, words);
      i := 0;
    } else {
      assert words[1..][k - 1..k - 1 + |part|] == words[k..k + |part|];
      i := SublistOccurs(part, words[1..], k - 1);
      var rest := Spread(words[1..]);
      assert Spread(words) == (" " + words[0]) + rest;
      i := i + 1 + |words[0]|;
      assert Spread(words)[i..i + |Spread(part)|] == rest[i - 1 - |words[0]|..i - 1 - |words[0]| + |Spread(part)|];
    }
  }

  /** Padded `includes` is whole-word matching. */
  lemma PaddedIncludes(words: seq<Token>, part: seq<Token>)
    requires part != []
    ensures Includes(Padded(Join(words)), Padded(Join(part))) <==> Sublist(part, words)
  {
    PaddedIsSpread(part);
    if words == [] {
      SpreadStarts(part);
      assert |Spread(part)| > 2;
    } else {
      PaddedIsSpread(words);
      if Includes(Spread(words), Spread(part)) {
        var i :| OccursAt(Spread(words), Spread(part), i);
        var k := SpreadOccurs(part, words, i);
      }
      if Sublist(part, words) {
        var k :| SublistAt(part, words, k);
        var i := SublistOccurs(part, words, k);
      }
    }
  }

  // ----- collapsed words are glued from consecutive spaced words

  type Group = g: seq<Token> | g != [] witness ["a"]

  function Flat(groups: seq<Group>): seq<Token> {
    if groups == [] then [] else Flat(groups[..|groups| - 1]) + groups[|groups| - 1]
  }

  function Glued(group: seq<Token>): string {
    if group == [] then "" else Glued(group[..|group| - 1]) + group[|group| - 1]
  }

  function WithLast(groups: seq<Group>, last: Group): seq<Group>
    requires groups != []
  {
    groups[..|groups| - 1] + [last]
  }

  function Grown(g: Group, c: Glyph): Group {
    Extended(g, c)
  }

  function Longer(g: Group, c: Glyph): Group {
    g + [Word(c)]
  }

  function Single(c: Glyph): Group {
    [Word(c)]
  }

  /** The words that joining punctuation holds together. */
  function Groups(s: seq<Symbol>): seq<Group> {
    if s == [] then []
    else
      var front, last := s[..|s| - 1], s[|s| - 1];
      var before := Groups(front);
      if !last.Alnum? then before
      else if before != [] && Scanned(front, false).open then
        WithLast(before, Grown(before[|before| - 1], last.c))
      else if before != [] && Scanned(front, true).open then
        WithLast(before, Longer(before[|before| - 1], last.c))
      else before + [Single(last.c)]
  }

  ghost predicate Glues(groups: seq<Group>, words: seq<Token>) {
    |groups| == |words| && forall i :: 0 <= i < |words| ==> Glued(groups[i]) == words[i]
  }

  lemma NewGroup(groups: seq<Group>, words: seq<Token>, c: Glyph)
    requires Glues(groups, words)
    ensures Glues(groups + [Single(c)], words + [Word(c)])
    ensures Flat(groups + [Single(c)]) == Flat(groups) + [Word(c)]
  {
  }

  lemma LastGroup(groups: seq<Group>, words: seq<Token>, c: Glyph)
    requires Glues(groups, words) && groups != []
    ensures var g := groups[|groups| - 1];
            && Glues(WithLast(groups, Grown(g, c)), Extended(words, c))
            && Glues(WithLast(groups, Longer(g, c)), Extended(words, c))
            && Flat(WithLast(groups, Grown(g, c))) == Extended(Flat(groups), c)
            && Flat(WithLast(groups, Longer(g, c))) == Flat(groups) + [Word(c)]
    ensures Flat(groups) != []
  {
  }

  /**
   * Every collapsed word is the concatenation of consecutive spaced words, all of them used,
   * in order.
   */
  lemma {:induction false} CollapsedWordsAreGlued(s: seq<Symbol>)
    ensures Flat(Groups(s)) == Tokens(s) && Glues(Groups(s), CollapsedTokens(s))
    ensures Scanned(s, false).open ==> Scanned(s, true).open
  {
    if s != [] {
      var front, last := s[..|s| - 1], s[|s| - 1];
      CollapsedWordsAreGlued(front);
      var groups := Groups(front);
      if last.Alnum? {
        NewGroup(groups, CollapsedTokens(front), last.c);
        if groups != [] {
          LastGroup(groups, CollapsedTokens(front), last.c);
        }
      }
      hide Glues, Flat, Extended, WithLast;
    }
  }

  lemma {:induction false} FlatIsLong(groups: seq<Group>)
    ensures |Flat(groups)| >= |groups|
  {
    if groups != [] {
      FlatIsLong(groups[..|groups| - 1]);
    }
  }

  /** A keyword of one word collapses to itself. */
  lemma OneWordCollapsesToItself(s: seq<Symbol>)
    ensures Tokens(s) == [] <==> CollapsedTokens(s) == []
    ensures |Tokens(s)| == 1 ==> CollapsedTokens(s) == Tokens(s)
  {
    CollapsedWordsAreGlued(s);
    var groups, words, collapsed := Groups(s), Tokens(s), CollapsedTokens(s);
    hide Groups, Scanned;
    FlatIsLong(groups);
    assert groups == [] <==> words == [];
    if |words| == 1 {
      var g := groups[0];
      assert groups[..0] == [] && Flat(groups) == Flat([]) + g;
      assert g == words && g[..0] == [];
      assert Glued(g) == Glued(g[..0]) + g[0] == g[0];
      assert collapsed == [Glued(g)];
    }
  }

  // ----- the theorems

  lemma {:induction false} JoinSpaces(words: seq<Token>)
    ensures Join(words) == "" <==> words == []
    ensures Includes(Join(words), " ") <==> |words| >= 2
  {
    if words != [] {
      JoinEnds(words);
    }
    if |words| >= 2 {
      var front := Join(words[..|words| - 1]);
      assert OccursAt(Join(words), " ", |front|);
    }
    forall i | OccursAt(Join(words), " ", i)
      ensures ' ' in Join(words)
    {
      assert Join(words)[i] == " "[0];
    }
    assert |words| == 1 ==> ' ' !in Join(words);
  }

  /** The title matches when the words of some term appear in it, in order and adjacent. */
  lemma TitleMatchIsWholeWords(title: seq<Symbol>, terms: seq<seq<Symbol>>)
    ensures TitleMatchesAny(title, terms) <==>
            exists term :: term in terms && Tokens(term) != [] && Sublist(Tokens(term), Tokens(title))
  {
    NormalizedIsJoined(title, false);
    forall term
      ensures NormalizeTitle(term) == Join(Tokens(term)) && (Join(Tokens(term)) == "" <==> Tokens(term) == [])
      ensures Tokens(term) != [] ==>
                (Includes(Padded(NormalizeTitle(title)), Padded(NormalizeTitle(term)))
                 <==> Sublist(Tokens(term), Tokens(title)))
    {
      NormalizedIsJoined(term, false);
      JoinSpaces(Tokens(term));
      if Tokens(term) != [] {
        PaddedIncludes(Tokens(title), Tokens(term));
      }
    }
  }

  lemma SublistOfOne(t: Token, words: seq<Token>)
    ensures Sublist([t], words) <==> t in words
  {
    if t in words {
      var k :| 0 <= k < |words| && words[k] == t;
      assert SublistAt([t], words, k);
    }
    if Sublist([t], words) {
      var k :| SublistAt([t], words, k);
      assert words[k] == words[k..k + 1][0] == t;
    }
  }

  /**
   * A keyword of one word matches exactly the texts with that collapsed word; a longer one
   * matches as a phrase of spaced words, or as a phrase of collapsed words.
   */
  lemma KeywordMatchIsWholeWords(text: seq<Symbol>, keyword: seq<Symbol>)
    ensures KeywordMatchesText(text, keyword) <==>
            if Tokens(keyword) == [] then false
            else if |Tokens(keyword)| == 1 then Tokens(keyword)[0] in CollapsedTokens(text)
            else || Sublist(Tokens(keyword), Tokens(text))
                 || Sublist(CollapsedTokens(keyword), CollapsedTokens(text))
  {
    NormalizedIsJoined(text, false);
    NormalizedIsJoined(text, true);
    NormalizedIsJoined(keyword, false);
    NormalizedIsJoined(keyword, true);
    JoinSpaces(Tokens(keyword));
    JoinSpaces(CollapsedTokens(keyword));
    OneWordCollapsesToItself(keyword);
    if Tokens(keyword) != [] {
      PaddedIncludes(Tokens(text), Tokens(keyword));
      PaddedIncludes(CollapsedTokens(text), CollapsedTokens(keyword));
      if |Tokens(keyword)| == 1 {
        SublistOfOne(Tokens(keyword)[0], CollapsedTokens(text));
        assert Tokens(keyword) == [Tokens(keyword)[0]];
      }
    }
  }
}
