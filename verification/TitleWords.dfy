/**
 * Titles after lower-casing and canonical decomposition, classified symbol by symbol, and
 * the two string normalizations built on them. The token lists say what the strings mean.
 */
module TitleWords {

  /** A letter or a digit. */
  type Glyph = c: char | c != ' ' witness 'a'

  datatype Symbol =
    | Alnum(c: Glyph)
    | Mark            // U+0300 to U+036F
    | Joiner          // apostrophe, grave or acute accent, . - _ + #
    | Other           // white space and every other separator

  type Token = t: string | t != [] && ' ' !in t witness ['a']

  // ----- the string pipeline

  /** replace(COMBINING_MARKS, ""), and replace(JOINING_PUNCTUATION, "") when collapsing. */
  function Deleted(s: seq<Symbol>, collapse: bool): seq<Symbol> {
    if s == [] then []
    else
      var before := Deleted(s[..|s| - 1], collapse);
      var last := s[|s| - 1];
      if last.Mark? || (collapse && last.Joiner?) then before else before + [last]
  }

  /** replace(NON_ALPHANUMERIC, " "): every maximal run becomes one space. */
  function Spaces(s: seq<Symbol>): string {
    if s == [] then ""
    else
      var before := Spaces(s[..|s| - 1]);
      var last := s[|s| - 1];
      if last.Alnum? then before + [last.c]
      else if before != [] && before[|before| - 1] == ' ' then before
      else before + " "
  }

  function TrimStart(s: string): string {
    if s != [] && s[0] == ' ' then TrimStart(s[1..]) else s
  }

  function TrimEnd(s: string): string {
    if s != [] && s[|s| - 1] == ' ' then TrimEnd(s[..|s| - 1]) else s
  }

  function Normalized(s: seq<Symbol>, collapse: bool): string {
    TrimEnd(TrimStart(Spaces(Deleted(s, collapse))))
  }

  function NormalizeTitle(s: seq<Symbol>): string {
    Normalized(s, false)
  }

  function NormalizeCollapsingJoiners(s: seq<Symbol>): string {
    Normalized(s, true)
  }

  // ----- the tokens

  /** The words so far, and whether the next letter continues the last of them. */
  datatype Scan = Scan(words: seq<Token>, open: bool)

  function Word(c: Glyph): Token {
    [c]
  }

  function Extended(words: seq<Token>, c: Glyph): (r: seq<Token>)
    requires words != []
    ensures |r| == |words|
  {
    words[|words| - 1 := words[|words| - 1] + [c]]
  }

  /** One more letter or digit. */
  function WithAlnum(r: Scan, c: Glyph): Scan
    requires r.open ==> r.words != []
  {
    if r.open then Scan(Extended(r.words, c), true) else Scan(r.words + [Word(c)], true)
  }

  function Scanned(s: seq<Symbol>, collapse: bool): (r: Scan)
    ensures r.open ==> r.words != []
  {
    if s == [] then Scan([], false)
    else
      var before := Scanned(s[..|s| - 1], collapse);
      match s[|s| - 1]
      case Alnum(c) => WithAlnum(before, c)
      case Mark => before
      case Joiner => if collapse then before else Scan(before.words, false)
      case Other => Scan(before.words, false)
  }

  /** The words of a text when all punctuation separates. */
  function Tokens(s: seq<Symbol>): seq<Token> {
    Scanned(s, false).words
  }

  /** The words when joining punctuation vanishes. */
  function CollapsedTokens(s: seq<Symbol>): seq<Token> {
    Scanned(s, true).words
  }

  function Join(words: seq<Token>): string {
    if words == [] then ""
    else if |words| == 1 then words[0]
    else Join(words[..|words| - 1]) + " " + words[|words| - 1]
  }

  // ----- the strings are the joined tokens

  lemma {:induction false} JoinEnds(words: seq<Token>)
    requires words != []
    ensures Join(words) != [] && Join(words)[0] != ' ' && Join(words)[|Join(words)| - 1] != ' '
  {
    if |words| > 1 {
      JoinEnds(words[..|words| - 1]);
    }
  }

  lemma JoinExtended(words: seq<Token>, c: Glyph)
    requires words != []
    ensures Join(Extended(words, c)) == Join(words) + [c]
  {
  }

  lemma JoinMore(words: seq<Token>, t: Token)
    requires words != []
    ensures Join(words + [t]) == Join(words) + " " + t
  {
  }

  /** What the run-replacing pass has produced, in terms of the words. */
  function Shown(lead: bool, r: Scan): string {
    (if lead then " " else "") + Join(r.words) + (if r.open || r.words == [] then "" else " ")
  }

  lemma ShowAlnum(lead: bool, r: Scan, c: Glyph)
    requires r.open ==> r.words != []
    ensures Shown(lead, WithAlnum(r, c)) == Shown(lead, r) + [c]
  {
    if r.open {
      JoinExtended(r.words, c);
    } else if r.words != [] {
      JoinMore(r.words, Word(c));
    }
  }

  lemma ShowSeparator(lead: bool, r: Scan)
    requires r.open ==> r.words != []
    ensures var text := Shown(lead, r);
            if text != [] && text[|text| - 1] == ' ' then text == Shown(lead, Scan(r.words, false))
            else text + " " == Shown(if r.words == [] then true else lead, Scan(r.words, false))
  {
  }

  lemma {:induction false} SpacesShowWords(s: seq<Symbol>, collapse: bool) returns (lead: bool)
    ensures Spaces(Deleted(s, collapse)) == Shown(lead, Scanned(s, collapse))
  {
    lead := false;
    if s != [] {
      var front, last := s[..|s| - 1], s[|s| - 1];
      lead := SpacesShowWords(front, collapse);
      var r := Scanned(front, collapse);
      var deleted := Deleted(front, collapse);
      assert (deleted + [last])[..|deleted|] == deleted;
      hide Shown, Join;
      if last.Alnum? {
        ShowAlnum(lead, r, last.c);
      } else if !last.Mark? && !(collapse && last.Joiner?) {
        ShowSeparator(lead, r);
        var text := Shown(lead, r);
        if !(text != [] && text[|text| - 1] == ' ') && r.words == [] {
          lead := true;
        }
      }
    }
  }

  lemma TrimPadding(text: string, before: bool, after: bool)
    requires text != [] && text[0] != ' ' && text[|text| - 1] != ' '
    ensures TrimEnd(TrimStart((if before then " " else "") + text + (if after then " " else ""))) == text
  {
    var padded := text + if after then " " else "";
    assert (if before then " " else "") + text + (if after then " " else "")
        == (if before then " " else "") + padded;
    assert "" + padded == padded && (" " + padded)[1..] == padded && TrimStart(padded) == padded;
    assert text + "" == text && (text + " ")[..|text|] == text && TrimEnd(text) == text;
  }

  /** The normalized string is the token list joined by single spaces. */
  lemma NormalizedIsJoined(s: seq<Symbol>, collapse: bool)
    ensures Normalized(s, collapse) == Join(Scanned(s, collapse).words)
  {
    var lead := SpacesShowWords(s, collapse);
    var r := Scanned(s, collapse);
    if r.words != [] {
      JoinEnds(r.words);
      TrimPadding(Join(r.words), lead, !r.open);
    } else {
      assert TrimStart("") == "" && " "[1..] == "" && TrimStart(" ") == "" && TrimEnd("") == "";
    }
  }
}
