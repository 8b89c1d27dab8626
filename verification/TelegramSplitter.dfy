/** Splitting a rendered digest into messages: `pack`, `splitAtomicPart`, `splitForTelegram`. */
module TelegramSplitter {
  import opened Wrappers
  import opened Utf16

  const TELEGRAM_MESSAGE_LIMIT := 4096

  const NEWLINE: Unit := 10
  const HYPHEN: Unit := 45

  const SECTION_SEPARATOR: Text := [NEWLINE, NEWLINE, HYPHEN, HYPHEN, HYPHEN, NEWLINE, NEWLINE]
  const ENTRY_SEPARATOR: Text := [NEWLINE, NEWLINE]

  // ----- joining and splitting

  function Join(parts: seq<Text>, separator: Text): Text {
    if parts == [] then []
    else if |parts| == 1 then parts[0]
    else parts[0] + separator + Join(parts[1..], separator)
  }

  lemma {:induction false} JoinAppend(parts: seq<Text>, separator: Text, p: Text)
    requires parts != []
    ensures Join(parts + [p], separator) == Join(parts, separator) + separator + p
  {
    if |parts| == 1 {
      assert (parts + [p])[1..] == [p];
    } else {
      JoinAppend(parts[1..], separator, p);
      assert (parts + [p])[1..] == parts[1..] + [p];
    }
  }

  lemma {:induction false} JoinConcat(a: seq<Text>, b: seq<Text>, separator: Text)
    requires a != [] && b != []
    ensures Join(a + b, separator) == Join(a, separator) + separator + Join(b, separator)
  {
    if |a| == 1 {
      assert (a + b)[1..] == b;
    } else {
      JoinConcat(a[1..], b, separator);
      assert (a + b)[1..] == a[1..] + b;
    }
  }

  /** Where `separator` first occurs. */
  function FirstIndex(t: Text, separator: Text): (r: Option<nat>)
    requires separator != []
    ensures r.Some? ==> r.value + |separator| <= |t| && t[r.value..r.value + |separator|] == separator
    decreases |t|
  {
    if |t| < |separator| then None
    else if t[..|separator|] == separator then Some(0)
    else match FirstIndex(t[1..], separator)
         case None => None
         case Some(i) =>
           assert t[1..][i..i + |separator|] == t[i + 1..i + 1 + |separator|];
           Some(i + 1)
  }

  predicate OccursAt(t: Text, separator: Text, i: nat) {
    i + |separator| <= |t| && t[i..i + |separator|] == separator
  }

  lemma {:induction false} NotLater(t: Text, separator: Text, i: nat)
    requires separator != [] && OccursAt(t, separator, i)
    ensures FirstIndex(t, separator).Some? && FirstIndex(t, separator).value <= i
    decreases |t|
  {
    if t[..|separator|] != separator {
      assert i > 0 ==> t[1..][i - 1..i - 1 + |separator|] == t[i..i + |separator|];
      NotLater(t[1..], separator, i - 1);
    }
  }

  /** It is found exactly if it occurs at all, and then where it occurs first. */
  lemma FirstIndexExactly(t: Text, separator: Text)
    requires separator != []
    ensures FirstIndex(t, separator).None? <==> forall i: nat :: !OccursAt(t, separator, i)
    ensures FirstIndex(t, separator).Some? ==>
              && OccursAt(t, separator, FirstIndex(t, separator).value)
              && forall i: nat :: i < FirstIndex(t, separator).value ==> !OccursAt(t, separator, i)
  {
    forall i: nat | OccursAt(t, separator, i)
      ensures FirstIndex(t, separator).Some? && FirstIndex(t, separator).value <= i
    {
      NotLater(t, separator, i);
    }
    if FirstIndex(t, separator).Some? {
      assert OccursAt(t, separator, FirstIndex(t, separator).value);
    }
  }

  /** String.prototype.split with a non-empty separator. */
  function SplitOn(t: Text, separator: Text): (r: seq<Text>)
    requires separator != []
    ensures r != []
    decreases |t|
  {
    match FirstIndex(t, separator)
    case None => [t]
    case Some(i) => [t[..i]] + SplitOn(t[i + |separator|..], separator)
  }

  lemma {:induction false} JoinSplit(t: Text, separator: Text)
    requires separator != []
    ensures Join(SplitOn(t, separator), separator) == t
    decreases |t|
  {
    match FirstIndex(t, separator) {
      case None =>
      case Some(i) =>
        var rest := t[i + |separator|..];
        JoinSplit(rest, separator);
        assert t == t[..i] + separator + rest;
        assert SplitOn(t, separator)[1..] == SplitOn(rest, separator);
    }
  }

  /**
   * No piece contains the separator; as joining the pieces gives the text back, the text is cut
   * at its separators and nowhere else.
   */
  lemma {:induction false} PiecesLackSeparator(t: Text, separator: Text, k: nat, i: nat)
    requires separator != [] && k < |SplitOn(t, separator)|
    ensures !OccursAt(SplitOn(t, separator)[k], separator, i)
    decreases |t|
  {
    match FirstIndex(t, separator) {
      case None =>
        if OccursAt(t, separator, i) {
          NotLater(t, separator, i);
        }
      case Some(j) =>
        if k > 0 {
          PiecesLackSeparator(t[j + |separator|..], separator, k - 1, i);
        } else if OccursAt(t[..j], separator, i) {
          assert t[..j][i..i + |separator|] == t[i..i + |separator|];
          NotLater(t, separator, i);
        }
    }
  }

  predicate AllWellFormed(parts: seq<Text>) {
    forall i :: 0 <= i < |parts| ==> WellFormed(parts[i])
  }

  lemma {:induction false} SplitWellFormed(t: Text, separator: Text)
    requires separator != [] && WellFormed(t) && WellFormed(separator) && !Low(separator[0])
    ensures AllWellFormed(SplitOn(t, separator))
    decreases |t|
  {
    hide WellFormed;
    match FirstIndex(t, separator) {
      case None =>
      case Some(i) =>
        var rest := t[i + |separator|..];
        assert t == t[..i] + (separator + rest);
        WellFormedCut(t[..i], separator + rest);
        WellFormedConcat(separator, rest);
        SplitWellFormed(rest, separator);
    }
  }

  // ----- pack

  predicate NonEmpty(parts: seq<Text>) {
    forall i :: 0 <= i < |parts| ==> parts[i] != []
  }

  predicate Fit(parts: seq<Text>, limit: nat) {
    forall i :: 0 <= i < |parts| ==> |parts[i]| <= limit
  }

  /** What the packing loop still has to output, from `current` and the parts ahead. */
  function PackFrom(current: Text, parts: seq<Text>, separator: Text, limit: nat): seq<Text>
    decreases |parts|
  {
    if parts == [] then
      if current != [] then [current] else []
    else
      var candidate := if current != [] then current + separator + parts[0] else parts[0];
      if |candidate| > limit && current != [] then
        [current] + PackFrom(parts[0], parts[1..], separator, limit)
      else
        PackFrom(candidate, parts[1..], separator, limit)
  }

  function Packed(parts: seq<Text>, separator: Text, limit: nat): seq<Text> {
    PackFrom([], parts, separator, limit)
  }

  method Pack(parts: seq<Text>, separator: Text, limit: nat) returns (chunks: seq<Text>)
    ensures chunks == Packed(parts, separator, limit)
  {
    chunks := [];
    var current: Text := [];
    var i := 0;
    while i < |parts|
      invariant 0 <= i <= |parts|
      invariant chunks + PackFrom(current, parts[i..], separator, limit) == Packed(parts, separator, limit)
    {
      var part := parts[i];
      var candidate := if current != [] then current + separator + part else part;
      assert parts[i..][1..] == parts[i + 1..];
      if |candidate| > limit && current != [] {
        chunks := chunks + [current];
        current := part;
      } else {
        current := candidate;
      }
      i := i + 1;
    }
    if current != [] {
      chunks := chunks + [current];
    }
  }

  /** Chunks are never empty, and never too long when every part fits. */
  lemma {:induction false} PackedFits(current: Text, parts: seq<Text>, separator: Text, limit: nat)
    requires |current| <= limit && Fit(parts, limit)
    ensures NonEmpty(PackFrom(current, parts, separator, limit))
    ensures Fit(PackFrom(current, parts, separator, limit), limit)
    decreases |parts|
  {
    if parts != [] {
      var candidate := if current != [] then current + separator + parts[0] else parts[0];
      if |candidate| > limit && current != [] {
        PackedFits(parts[0], parts[1..], separator, limit);
      } else {
        PackedFits(candidate, parts[1..], separator, limit);
      }
    }
  }

  lemma {:induction false} PackedWellFormed(current: Text, parts: seq<Text>, separator: Text, limit: nat)
    requires WellFormed(current) && AllWellFormed(parts) && WellFormed(separator)
    ensures AllWellFormed(PackFrom(current, parts, separator, limit))
    decreases |parts|
  {
    if parts != [] {
      var candidate := if current != [] then current + separator + parts[0] else parts[0];
      WellFormedConcat(current, separator);
      WellFormedConcat(current + separator, parts[0]);
      if |candidate| > limit && current != [] {
        PackedWellFormed(parts[0], parts[1..], separator, limit);
      } else {
        PackedWellFormed(candidate, parts[1..], separator, limit);
      }
    }
  }

  // ----- pack keeps everything, and is optimal

  function Flat(groups: seq<seq<Text>>): seq<Text> {
    if groups == [] then [] else groups[0] + Flat(groups[1..])
  }

  function JoinAll(groups: seq<seq<Text>>, separator: Text): (r: seq<Text>)
    ensures |r| == |groups|
    ensures forall i :: 0 <= i < |r| ==> r[i] == Join(groups[i], separator)
  {
    seq(|groups|, i requires 0 <= i < |groups| => Join(groups[i], separator))
  }

  /** The groups of parts the packing loop forms, `group` being the one under way. */
  function GroupFrom(group: seq<Text>, parts: seq<Text>, separator: Text, limit: nat): seq<seq<Text>>
    requires group != []
    decreases |parts|
  {
    if parts == [] then [group]
    else if |Join(group + [parts[0]], separator)| > limit then
      [group] + GroupFrom([parts[0]], parts[1..], separator, limit)
    else
      GroupFrom(group + [parts[0]], parts[1..], separator, limit)
  }

  lemma JoinNonEmpty(parts: seq<Text>, separator: Text)
    requires parts != [] && parts[0] != []
    ensures Join(parts, separator) != []
  {
  }

  lemma {:induction false} GroupsCoverParts(group: seq<Text>, parts: seq<Text>, separator: Text, limit: nat)
    requires group != []
    ensures Flat(GroupFrom(group, parts, separator, limit)) == group + parts
    decreases |parts|
  {
    hide Join;
    if parts == [] {
      assert Flat([group]) == group + Flat([]);
    } else {
      var rest := parts[1..];
      assert parts == [parts[0]] + rest;
      if |Join(group + [parts[0]], separator)| > limit {
        GroupsCoverParts([parts[0]], rest, separator, limit);
        var tail := GroupFrom([parts[0]], rest, separator, limit);
        assert ([group] + tail)[1..] == tail;
      } else {
        GroupsCoverParts(group + [parts[0]], rest, separator, limit);
      }
    }
  }

  lemma {:induction false} PackedAreGroups(group: seq<Text>, parts: seq<Text>, separator: Text, limit: nat)
    requires group != [] && NonEmpty(group) && NonEmpty(parts)
    ensures PackFrom(Join(group, separator), parts, separator, limit)
            == JoinAll(GroupFrom(group, parts, separator, limit), separator)
    decreases |parts|
  {
    JoinNonEmpty(group, separator);
    if parts != [] {
      JoinAppend(group, separator, parts[0]);
      assert Join([parts[0]], separator) == parts[0];
      hide Join;
      var rest := parts[1..];
      if |Join(group + [parts[0]], separator)| > limit {
        PackedAreGroups([parts[0]], rest, separator, limit);
        var tail := GroupFrom([parts[0]], rest, separator, limit);
        assert JoinAll([group] + tail, separator) == [Join(group, separator)] + JoinAll(tail, separator);
      } else {
        PackedAreGroups(group + [parts[0]], rest, separator, limit);
      }
    }
  }

  lemma {:induction false} JoinFlat(groups: seq<seq<Text>>, separator: Text)
    requires forall i :: 0 <= i < |groups| ==> groups[i] != []
    ensures Join(JoinAll(groups, separator), separator) == Join(Flat(groups), separator)
  {
    if groups != [] {
      JoinFlat(groups[1..], separator);
      assert JoinAll(groups, separator)[1..] == JoinAll(groups[1..], separator);
      if |groups| > 1 {
        assert Flat(groups[1..]) != [];
        JoinConcat(groups[0], Flat(groups[1..]), separator);
      } else {
        assert Flat(groups[1..]) == [];
        assert groups[0] + [] == groups[0] == Flat(groups);
        assert JoinAll(groups, separator) == [Join(groups[0], separator)];
      }
    }
  }

  lemma {:induction false} GroupsNonEmpty(group: seq<Text>, parts: seq<Text>, separator: Text, limit: nat)
    requires group != []
    ensures forall i :: 0 <= i < |GroupFrom(group, parts, separator, limit)| ==>
                          GroupFrom(group, parts, separator, limit)[i] != []
    decreases |parts|
  {
    if parts != [] {
      if |Join(group + [parts[0]], separator)| > limit {
        GroupsNonEmpty([parts[0]], parts[1..], separator, limit);
      } else {
        GroupsNonEmpty(group + [parts[0]], parts[1..], separator, limit);
      }
    }
  }

  /** Rejoining the chunks gives back the joined parts, whether or not each part fits. */
  lemma PackKeepsEverything(parts: seq<Text>, separator: Text, limit: nat)
    requires NonEmpty(parts)
    ensures Join(Packed(parts, separator, limit), separator) == Join(parts, separator)
  {
    if parts != [] {
      var groups := GroupFrom([parts[0]], parts[1..], separator, limit);
      PackedAreGroups([parts[0]], parts[1..], separator, limit);
      GroupsCoverParts([parts[0]], parts[1..], separator, limit);
      GroupsNonEmpty([parts[0]], parts[1..], separator, limit);
      JoinFlat(groups, separator);
      assert parts == [parts[0]] + parts[1..];
    }
  }

  lemma {:induction false} JoinPrefixShorter(a: seq<Text>, b: seq<Text>, separator: Text)
    ensures |Join(a, separator)| <= |Join(a + b, separator)|
    ensures |Join(b, separator)| <= |Join(a + b, separator)|
  {
    if a == [] {
      assert a + b == b;
    } else if b == [] {
      assert a + b == a;
    } else {
      JoinConcat(a, b, separator);
    }
  }

  predicate GroupsFit(groups: seq<seq<Text>>, separator: Text, limit: nat) {
    forall i :: 0 <= i < |groups| ==> |Join(groups[i], separator)| <= limit
  }

  /** The grouping that remains when the first `n` parts are taken away. */
  function DropParts(groups: seq<seq<Text>>, n: nat): seq<seq<Text>>
    requires n <= |Flat(groups)|
  {
    if n == 0 || groups == [] then groups
    else if |groups[0]| <= n then DropParts(groups[1..], n - |groups[0]|)
    else [groups[0][n..]] + groups[1..]
  }

  lemma {:induction false} DropPartsFits(groups: seq<seq<Text>>, n: nat, separator: Text, limit: nat)
    requires n <= |Flat(groups)| && GroupsFit(groups, separator, limit)
    ensures |DropParts(groups, n)| <= |groups|
    ensures Flat(DropParts(groups, n)) == Flat(groups)[n..]
    ensures GroupsFit(DropParts(groups, n), separator, limit)
  {
    if n == 0 || groups == [] {
    } else if |groups[0]| <= n {
      DropPartsFits(groups[1..], n - |groups[0]|, separator, limit);
      assert Flat(groups)[n..] == Flat(groups[1..])[n - |groups[0]|..];
    } else {
      var trimmed := [groups[0][n..]] + groups[1..];
      assert trimmed[1..] == groups[1..];
      assert groups[0] == groups[0][..n] + groups[0][n..];
      JoinPrefixShorter(groups[0][..n], groups[0][n..], separator);
      forall i | 0 <= i < |trimmed|
        ensures |Join(trimmed[i], separator)| <= limit
      {
        if i > 0 {
          assert trimmed[i] == groups[i];
        }
      }
    }
  }

  /** The greedy groups, counted from the one under way, are no more than any others. */
  lemma {:induction false} GreedyStaysAhead(
    group: seq<Text>, parts: seq<Text>, separator: Text, limit: nat, others: seq<seq<Text>>)
    requires group != []
    requires Flat(others) == group + parts && GroupsFit(others, separator, limit)
    ensures |GroupFrom(group, parts, separator, limit)| <= |others|
    decreases |parts|
  {
    if parts == [] {
      assert others != [];
    } else {
      var rest := parts[1..];
      assert parts == [parts[0]] + rest;
      if |Join(group + [parts[0]], separator)| > limit {
        var first := others[0];
        if |first| > |group| {
          assert first == (group + parts)[..|first|];
          assert first == (group + [parts[0]]) + first[|group| + 1..];
          JoinPrefixShorter(group + [parts[0]], first[|group| + 1..], separator);
          assert false;
        }
        var later := others[1..];
        assert Flat(later) == (group + parts)[|first|..];
        var n := |group| - |first|;
        DropPartsFits(later, n, separator, limit);
        assert Flat(DropParts(later, n)) == [parts[0]] + rest;
        GreedyStaysAhead([parts[0]], rest, separator, limit, DropParts(later, n));
      } else {
        assert group + parts == (group + [parts[0]]) + rest;
        GreedyStaysAhead(group + [parts[0]], rest, separator, limit, others);
      }
    }
  }

  /**
   * For non-empty parts that each fit: `pack` is itself an order-preserving grouping whose
   * joined chunks fit, and no such grouping has fewer chunks.
   */
  lemma PackIsOptimal(parts: seq<Text>, separator: Text, limit: nat)
    requires NonEmpty(parts) && Fit(parts, limit)
    ensures exists own: seq<seq<Text>> ::
              Flat(own) == parts && GroupsFit(own, separator, limit)
              && Packed(parts, separator, limit) == JoinAll(own, separator)
    ensures forall others: seq<seq<Text>> ::
              Flat(others) == parts && GroupsFit(others, separator, limit) ==>
                |Packed(parts, separator, limit)| <= |others|
  {
    if parts == [] {
      assert Flat([]) == parts && JoinAll([], separator) == [];
      assert GroupsFit([], separator, limit);
    } else {
      var own := GroupFrom([parts[0]], parts[1..], separator, limit);
      PackedAreGroups([parts[0]], parts[1..], separator, limit);
      GroupsCoverParts([parts[0]], parts[1..], separator, limit);
      assert parts == [parts[0]] + parts[1..];
      PackedFits([], parts, separator, limit);
      forall i | 0 <= i < |own|
        ensures |Join(own[i], separator)| <= limit
      {
        assert Packed(parts, separator, limit)[i] == Join(own[i], separator);
      }
      forall others: seq<seq<Text>> | Flat(others) == parts && GroupsFit(others, separator, limit)
        ensures |Packed(parts, separator, limit)| <= |others|
      {
        GreedyStaysAhead([parts[0]], parts[1..], separator, limit, others);
      }
    }
  }

  // ----- splitting one oversized entry

  function Concat(pieces: seq<Text>): Text {
    if pieces == [] then [] else pieces[0] + Concat(pieces[1..])
  }

  lemma {:induction false} ConcatAppend(a: seq<Text>, b: seq<Text>)
    ensures Concat(a + b) == Concat(a) + Concat(b)
  {
    if a == [] {
      assert a + b == b;
    } else {
      ConcatAppend(a[1..], b);
      assert (a + b)[1..] == a[1..] + b && (a + b)[0] == a[0];
      assert a[0] + (Concat(a[1..]) + Concat(b)) == (a[0] + Concat(a[1..])) + Concat(b);
    }
  }

  /** What the code-point loop still has to output, from `current` and the units ahead. */
  function AtomicFrom(current: Text, ahead: Text, limit: nat): seq<Text>
    decreases |ahead|
  {
    if ahead == [] then
      if current != [] then [current] else []
    else
      var n := FirstSymbol(ahead);
      if current != [] && |current| + n > limit then
        [current] + AtomicFrom(ahead[..n], ahead[n..], limit)
      else
        AtomicFrom(current + ahead[..n], ahead[n..], limit)
  }

  function AtomicPieces(part: Text, limit: nat): seq<Text> {
    if |part| <= limit then [part] else AtomicFrom([], part, limit)
  }

  method SplitAtomicPart(part: Text, limit: nat) returns (chunks: seq<Text>)
    ensures chunks == AtomicPieces(part, limit)
  {
    if |part| <= limit {
      return [part];
    }
    chunks := [];
    var current: Text := [];
    var i := 0;
    while i < |part|
      invariant 0 <= i <= |part|
      invariant chunks + AtomicFrom(current, part[i..], limit) == AtomicFrom([], part, limit)
    {
      var n := FirstSymbol(part[i..]);
      var symbol := part[i..i + n];
      assert part[i..][..n] == symbol && part[i..][n..] == part[i + n..];
      if current != [] && |current| + |symbol| > limit {
        chunks := chunks + [current];
        current := [];
      }
      current := current + symbol;
      assert [] + symbol == symbol;
      i := i + n;
    }
    if current != [] {
      chunks := chunks + [current];
    }
  }

  /** No cut between `a` and `b` separates a high surrogate from the low one after it. */
  predicate CleanCut(a: Text, b: Text) {
    a == [] || b == [] || !(High(a[|a| - 1]) && Low(b[0]))
  }

  predicate CleanCuts(pieces: seq<Text>) {
    forall i :: 0 <= i < |pieces| - 1 ==> CleanCut(pieces[i], pieces[i + 1])
  }

  lemma {:induction false} AtomicFits(current: Text, ahead: Text, limit: nat)
    requires limit >= 2 && |current| <= limit
    ensures NonEmpty(AtomicFrom(current, ahead, limit)) && Fit(AtomicFrom(current, ahead, limit), limit)
    decreases |ahead|
  {
    if ahead != [] {
      var n := FirstSymbol(ahead);
      if current != [] && |current| + n > limit {
        AtomicFits(ahead[..n], ahead[n..], limit);
      } else {
        AtomicFits(current + ahead[..n], ahead[n..], limit);
      }
    }
  }

  lemma {:induction false} AtomicConcat(current: Text, ahead: Text, limit: nat)
    ensures Concat(AtomicFrom(current, ahead, limit)) == current + ahead
    decreases |ahead|
  {
    var pieces := AtomicFrom(current, ahead, limit);
    if ahead == [] {
      assert pieces != [] ==> Concat(pieces) == current + Concat([]);
    } else {
      var n := FirstSymbol(ahead);
      assert ahead == ahead[..n] + ahead[n..];
      if current != [] && |current| + n > limit {
        AtomicConcat(ahead[..n], ahead[n..], limit);
        assert pieces[1..] == AtomicFrom(ahead[..n], ahead[n..], limit);
      } else {
        AtomicConcat(current + ahead[..n], ahead[n..], limit);
        assert (current + ahead[..n]) + ahead[n..] == current + ahead;
      }
    }
  }

  lemma {:induction false} AtomicCleanCuts(current: Text, ahead: Text, limit: nat)
    requires CleanCut(current, ahead)
    ensures var pieces := AtomicFrom(current, ahead, limit);
            CleanCuts(pieces) && (current != [] ==> pieces != [] && pieces[0] != [] && pieces[0][0] == current[0])
    decreases |ahead|
  {
    if ahead != [] {
      var n := FirstSymbol(ahead);
      var symbol, rest := ahead[..n], ahead[n..];
      assert CleanCut(symbol, rest);
      if current != [] && |current| + n > limit {
        AtomicCleanCuts(symbol, rest, limit);
      } else {
        assert (current + symbol)[|current + symbol| - 1] == symbol[n - 1];
        AtomicCleanCuts(current + symbol, rest, limit);
      }
    }
  }

  lemma SymbolWellFormed(t: Text)
    requires t != [] && WellFormed(t)
    ensures var n := FirstSymbol(t); WellFormed(t[..n]) && WellFormed(t[n..])
  {
  }

  lemma {:induction false} AtomicWellFormed(current: Text, ahead: Text, limit: nat)
    requires WellFormed(current) && WellFormed(ahead)
    ensures AllWellFormed(AtomicFrom(current, ahead, limit))
    decreases |ahead|
  {
    if ahead != [] {
      var n := FirstSymbol(ahead);
      SymbolWellFormed(ahead);
      if current != [] && |current| + n > limit {
        AtomicWellFormed(ahead[..n], ahead[n..], limit);
      } else {
        WellFormedConcat(current, ahead[..n]);
        AtomicWellFormed(current + ahead[..n], ahead[n..], limit);
      }
    }
  }

  /** A piece is cut off only when the next symbol does not fit any more. */
  lemma {:induction false} AtomicFull(current: Text, ahead: Text, limit: nat, i: nat)
    requires limit >= 2 && i + 1 < |AtomicFrom(current, ahead, limit)|
    ensures |AtomicFrom(current, ahead, limit)[i]| >= limit - 1
    decreases |ahead|
  {
    if ahead != [] {
      var n := FirstSymbol(ahead);
      if current != [] && |current| + n > limit {
        if i > 0 {
          AtomicFull(ahead[..n], ahead[n..], limit, i - 1);
        }
      } else {
        AtomicFull(current + ahead[..n], ahead[n..], limit, i);
      }
    }
  }

  /** `a` is full, and the cut before `b` separates no high surrogate from the low one after it. */
  ghost predicate WellCut(a: Text, b: Text, limit: nat) {
    && a != [] && |a| >= limit - 1 && b != []
    && !(0xD800 <= a[|a| - 1] < 0xDC00 && 0xDC00 <= b[0] < 0xE000)
  }

  ghost predicate AllWellCut(pieces: seq<Text>, limit: nat) {
    forall i :: 0 <= i < |pieces| - 1 ==> WellCut(pieces[i], pieces[i + 1], limit)
  }

  lemma AtomicWellCut(part: Text, limit: nat)
    requires limit >= 2
    ensures AllWellCut(AtomicFrom([], part, limit), limit)
  {
    hide AtomicFrom;
    AtomicFits([], part, limit);
    AtomicCleanCuts([], part, limit);
    var pieces := AtomicFrom([], part, limit);
    forall i | 0 <= i < |pieces| - 1
      ensures WellCut(pieces[i], pieces[i + 1], limit)
    {
      AtomicFull([], part, limit, i);
      assert pieces[i] != [] && pieces[i + 1] != [] && CleanCut(pieces[i], pieces[i + 1]);
    }
  }

  lemma OnePiece(part: Text, limit: nat)
    ensures AllWellCut([part], limit)
  {
  }

  lemma NothingWellFormed()
    ensures WellFormed([])
  {
  }

  /**
   * An entry that fits is one piece. The pieces of any other concatenate back to it, each
   * fits and all but the last are full; no cut separates a surrogate pair, well-formed
   * entry or not.
   */
  lemma AtomicPiecesKeepTheEntry(part: Text, limit: nat)
    requires limit >= 2
    ensures var pieces := AtomicPieces(part, limit);
            && Concat(pieces) == part && (|part| <= limit ==> pieces == [part])
            && Fit(pieces, limit) && (part != [] ==> NonEmpty(pieces))
            && AllWellCut(pieces, limit)
            && (WellFormed(part) ==> AllWellFormed(pieces))
  {
    hide AtomicFrom, WellFormed, AllWellCut;
    if |part| <= limit {
      assert Concat([part]) == part + Concat([]);
      OnePiece(part, limit);
    } else {
      AtomicFits([], part, limit);
      AtomicConcat([], part, limit);
      AtomicWellCut(part, limit);
      if WellFormed(part) {
        NothingWellFormed();
        AtomicWellFormed([], part, limit);
      }
      assert [] + part == part;
    }
  }

  // ----- splitForTelegram

  function Entries(section: Text, limit: nat): seq<Text> {
    if |section| > limit then SplitOn(section, ENTRY_SEPARATOR) else [section]
  }

  /** A section that fits is one entry; any other is cut at all its blank lines and nowhere else. */
  lemma EntriesExactly(section: Text, limit: nat)
    ensures |section| <= limit ==> Entries(section, limit) == [section]
    ensures |section| > limit ==>
              && Join(Entries(section, limit), ENTRY_SEPARATOR) == section
              && forall k: nat, i: nat :: k < |Entries(section, limit)| ==>
                   !OccursAt(Entries(section, limit)[k], ENTRY_SEPARATOR, i)
  {
    if |section| > limit {
      JoinSplit(section, ENTRY_SEPARATOR);
      forall k: nat, i: nat | k < |Entries(section, limit)|
        ensures !OccursAt(Entries(section, limit)[k], ENTRY_SEPARATOR, i)
      {
        PiecesLackSeparator(section, ENTRY_SEPARATOR, k, i);
      }
    }
  }

  /** flatMap of `splitAtomicPart` over entries. */
  function PiecesOf(entries: seq<Text>, limit: nat): seq<Text> {
    if entries == [] then []
    else PiecesOf(entries[..|entries| - 1], limit) + AtomicPieces(entries[|entries| - 1], limit)
  }

  /** flatMap of entries over sections. */
  function EntriesOf(sections: seq<Text>, limit: nat): seq<Text> {
    if sections == [] then []
    else EntriesOf(sections[..|sections| - 1], limit) + Entries(sections[|sections| - 1], limit)
  }

  function Messages(text: Text, limit: nat): seq<Text> {
    var sections := SplitOn(text, SECTION_SEPARATOR);
    if Fit(sections, limit) then Packed(sections, SECTION_SEPARATOR, limit)
    else Packed(PiecesOf(EntriesOf(sections, limit), limit), ENTRY_SEPARATOR, limit)
  }

  method AllEntries(sections: seq<Text>, limit: nat) returns (entries: seq<Text>)
    ensures entries == EntriesOf(sections, limit)
  {
    hide Entries;
    entries := [];
    var i := 0;
    while i < |sections|
      invariant 0 <= i <= |sections|
      invariant entries == EntriesOf(sections[..i], limit)
    {
      assert sections[..i + 1][..i] == sections[..i];
      entries := entries + Entries(sections[i], limit);
      i := i + 1;
    }
    assert sections[..i] == sections;
  }

  method AllPieces(entries: seq<Text>, limit: nat) returns (finer: seq<Text>)
    ensures finer == PiecesOf(entries, limit)
  {
    hide AtomicPieces;
    finer := [];
    var i := 0;
    while i < |entries|
      invariant 0 <= i <= |entries|
      invariant finer == PiecesOf(entries[..i], limit)
    {
      assert entries[..i + 1][..i] == entries[..i];
      var pieces := SplitAtomicPart(entries[i], limit);
      finer := finer + pieces;
      i := i + 1;
    }
    assert entries[..i] == entries;
  }

  method SplitForTelegram(text: Text, limit: int) returns (r: Result<seq<Text>>)
    ensures r.Ok? <==> limit >= 2
    ensures r.Ok? ==> r.value == Messages(text, limit)
  {
    if limit < 2 {
      return Thrown("Telegram message limit must be an integer >= 2");
    }
    hide SplitOn, Packed, EntriesOf, PiecesOf;
    var sections := SplitOn(text, SECTION_SEPARATOR);
    var oversized := exists i :: 0 <= i < |sections| && |sections[i]| > limit;
    if !oversized {
      var packed := Pack(sections, SECTION_SEPARATOR, limit);
      return Ok(packed);
    }
    var entries := AllEntries(sections, limit);
    var finer := AllPieces(entries, limit);
    var chunks := Pack(finer, ENTRY_SEPARATOR, limit);
    return Ok(chunks);
  }

  lemma {:induction false} PiecesFacts(entries: seq<Text>, limit: nat)
    requires limit >= 2
    ensures Fit(PiecesOf(entries, limit), limit)
    ensures NonEmpty(entries) ==> NonEmpty(PiecesOf(entries, limit))
    ensures AllWellFormed(entries) ==> AllWellFormed(PiecesOf(entries, limit))
  {
    if entries != [] {
      var n := |entries| - 1;
      PiecesFacts(entries[..n], limit);
      AtomicPiecesKeepTheEntry(entries[n], limit);
      hide AtomicPieces, WellFormed, Concat, CleanCuts;
      assert PiecesOf(entries, limit) == PiecesOf(entries[..n], limit) + AtomicPieces(entries[n], limit);
    }
  }

  lemma ConcatLast(pieces: seq<Text>)
    requires pieces != []
    ensures Concat(pieces) == Concat(pieces[..|pieces| - 1]) + pieces[|pieces| - 1]
  {
    var n := |pieces| - 1;
    ConcatAppend(pieces[..n], [pieces[n]]);
    assert pieces == pieces[..n] + [pieces[n]];
    assert Concat([pieces[n]]) == pieces[n] + Concat([]);
  }

  lemma {:induction false} PiecesConcat(entries: seq<Text>, limit: nat)
    requires limit >= 2
    ensures Concat(PiecesOf(entries, limit)) == Concat(entries)
  {
    hide AtomicPieces, WellFormed, Concat, CleanCuts, AllWellFormed, Fit, NonEmpty;
    if entries == [] {
      assert PiecesOf(entries, limit) == entries;
    } else {
      var n := |entries| - 1;
      PiecesConcat(entries[..n], limit);
      AtomicPiecesKeepTheEntry(entries[n], limit);
      ConcatAppend(PiecesOf(entries[..n], limit), AtomicPieces(entries[n], limit));
      ConcatLast(entries);
    }
  }

  lemma SeparatorsWellFormed()
    ensures WellFormed(ENTRY_SEPARATOR) && WellFormed(SECTION_SEPARATOR)
  {
    assert ENTRY_SEPARATOR[1..] == [NEWLINE];
    WellFormedConcat(ENTRY_SEPARATOR, [HYPHEN, HYPHEN, HYPHEN] + ENTRY_SEPARATOR);
    assert SECTION_SEPARATOR == ENTRY_SEPARATOR + ([HYPHEN, HYPHEN, HYPHEN] + ENTRY_SEPARATOR);
    var hyphens: Text := [HYPHEN, HYPHEN, HYPHEN];
    assert hyphens[1..][1..] == [HYPHEN];
    assert WellFormed([HYPHEN]) && WellFormed(hyphens[1..]) && WellFormed(hyphens);
    WellFormedConcat(hyphens, ENTRY_SEPARATOR);
  }

  lemma {:induction false} EntriesWellFormed(sections: seq<Text>, limit: nat)
    requires AllWellFormed(sections)
    ensures AllWellFormed(EntriesOf(sections, limit))
  {
    if sections != [] {
      var n := |sections| - 1;
      EntriesWellFormed(sections[..n], limit);
      SeparatorsWellFormed();
      if |sections[n]| > limit {
        SplitWellFormed(sections[n], ENTRY_SEPARATOR);
      }
    }
  }

  /** For any text and any limit of at least 2, every message is non-empty and fits. */
  lemma MessagesFit(text: Text, limit: nat)
    requires limit >= 2
    ensures NonEmpty(Messages(text, limit)) && Fit(Messages(text, limit), limit)
  {
    var sections := SplitOn(text, SECTION_SEPARATOR);
    if Fit(sections, limit) {
      PackedFits([], sections, SECTION_SEPARATOR, limit);
    } else {
      PiecesFacts(EntriesOf(sections, limit), limit);
      PackedFits([], PiecesOf(EntriesOf(sections, limit), limit), ENTRY_SEPARATOR, limit);
    }
  }

  /** Every message of a well-formed text is well-formed: no surrogate pair is cut. */
  lemma MessagesWellFormed(text: Text, limit: nat)
    requires limit >= 2 && WellFormed(text)
    ensures AllWellFormed(Messages(text, limit))
  {
    SeparatorsWellFormed();
    var sections := SplitOn(text, SECTION_SEPARATOR);
    SplitWellFormed(text, SECTION_SEPARATOR);
    if Fit(sections, limit) {
      PackedWellFormed([], sections, SECTION_SEPARATOR, limit);
    } else {
      EntriesWellFormed(sections, limit);
      PiecesFacts(EntriesOf(sections, limit), limit);
      PackedWellFormed([], PiecesOf(EntriesOf(sections, limit), limit), ENTRY_SEPARATOR, limit);
    }
  }

  /** With no oversized and no empty section, rejoining the messages gives the text back. */
  lemma MessagesRejoin(text: Text, limit: nat)
    requires Fit(SplitOn(text, SECTION_SEPARATOR), limit) && NonEmpty(SplitOn(text, SECTION_SEPARATOR))
    ensures Join(Messages(text, limit), SECTION_SEPARATOR) == text
  {
    PackKeepsEverything(SplitOn(text, SECTION_SEPARATOR), SECTION_SEPARATOR, limit);
    JoinSplit(text, SECTION_SEPARATOR);
  }

  /**
   * With an oversized section, the pieces read in a row are the entries read in a row; and with
   * no empty entry, the messages are the pieces joined by the entry separator.
   */
  lemma MessagesKeepEveryEntry(text: Text, limit: nat)
    requires limit >= 2 && !Fit(SplitOn(text, SECTION_SEPARATOR), limit)
    ensures var entries := EntriesOf(SplitOn(text, SECTION_SEPARATOR), limit);
            && Concat(PiecesOf(entries, limit)) == Concat(entries)
            && Messages(text, limit) == Packed(PiecesOf(entries, limit), ENTRY_SEPARATOR, limit)
            && (NonEmpty(entries) ==>
                  Join(Messages(text, limit), ENTRY_SEPARATOR) == Join(PiecesOf(entries, limit), ENTRY_SEPARATOR))
  {
    var entries := EntriesOf(SplitOn(text, SECTION_SEPARATOR), limit);
    PiecesConcat(entries, limit);
    if NonEmpty(entries) {
      PiecesFacts(entries, limit);
      PackKeepsEverything(PiecesOf(entries, limit), ENTRY_SEPARATOR, limit);
    }
  }
}
