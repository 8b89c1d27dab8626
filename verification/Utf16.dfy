/** Text as the source sees it: a sequence of UTF-16 code units. */
module Utf16 {
  type Unit = u: int | 0 <= u < 0x1_0000 witness 0

  type Text = seq<Unit>

  predicate High(u: Unit) {
    0xD800 <= u < 0xDC00
  }

  predicate Low(u: Unit) {
    0xDC00 <= u < 0xE000
  }

  /** The units of the first code point: a surrogate pair, or a single unit. */
  function FirstSymbol(t: Text): nat
    requires t != []
  {
    if |t| >= 2 && High(t[0]) && Low(t[1]) then 2 else 1
  }

  /** Well-formed UTF-16 in the sense of section 3.9 of the Unicode Standard. */
  predicate WellFormed(t: Text)
    decreases |t|
  {
    t == [] ||
    (if FirstSymbol(t) == 2 then WellFormed(t[2..]) else !High(t[0]) && !Low(t[0]) && WellFormed(t[1..]))
  }

  /** A high surrogate here is followed by a low one, a low one here preceded by a high one. */
  ghost predicate PairedAt(t: Text, i: nat)
    requires i < |t|
  {
    && (0xD800 <= t[i] <= 0xDBFF ==> i + 1 < |t| && 0xDC00 <= t[i + 1] <= 0xDFFF)
    && (0xDC00 <= t[i] <= 0xDFFF ==> i > 0 && 0xD800 <= t[i - 1] <= 0xDBFF)
  }

  ghost predicate Paired(t: Text) {
    forall i: nat :: i < |t| ==> PairedAt(t, i)
  }

  lemma PairedFurther(t: Text, i: nat)
    requires t != [] && i + FirstSymbol(t) < |t|
    ensures PairedAt(t, i + FirstSymbol(t)) <==> PairedAt(t[FirstSymbol(t)..], i)
  {
    var n := FirstSymbol(t);
    var rest := t[n..];
    assert rest[i] == t[i + n];
    assert i + 1 < |rest| ==> rest[i + 1] == t[i + 1 + n];
    assert i > 0 ==> rest[i - 1] == t[i - 1 + n];
  }

  lemma PairedFirst(t: Text)
    requires t != []
    ensures FirstSymbol(t) == 2 ==> PairedAt(t, 0) && PairedAt(t, 1)
    ensures FirstSymbol(t) == 1 ==> (PairedAt(t, 0) <==> !High(t[0]) && !Low(t[0]))
  {
  }

  /** The symbol-by-symbol definition says that surrogates come in pairs only. */
  lemma {:induction false} WellFormedExactly(t: Text)
    ensures WellFormed(t) <==> Paired(t)
    decreases |t|
  {
    hide PairedAt;
    if t != [] {
      var n := FirstSymbol(t);
      PairedFirst(t);
      WellFormedExactly(t[n..]);
      forall i: nat | i < |t[n..]|
        ensures PairedAt(t, i + n) <==> PairedAt(t[n..], i)
      {
        PairedFurther(t, i);
      }
      if Paired(t[n..]) {
        forall i: nat | n <= i < |t|
          ensures PairedAt(t, i)
        {
          assert PairedAt(t[n..], i - n);
        }
      }
    }
  }

  lemma {:induction false} WellFormedConcat(a: Text, b: Text)
    requires WellFormed(a)
    ensures WellFormed(a + b) <==> WellFormed(b)
    decreases |a|
  {
    if a == [] {
      assert a + b == b;
    } else {
      var n := FirstSymbol(a);
      WellFormedConcat(a[n..], b);
      assert (a + b)[n..] == a[n..] + b;
      assert FirstSymbol(a + b) == n;
    }
  }

  /** Cutting before a unit that is not a surrogate never cuts a pair. */
  lemma {:induction false} WellFormedCut(a: Text, b: Text)
    requires WellFormed(a + b)
    requires b != [] && !Low(b[0])
    ensures WellFormed(a) && WellFormed(b)
    decreases |a|
  {
    if a == [] {
      assert a + b == b;
    } else {
      var t := a + b;
      var n := FirstSymbol(t);
      if n == 2 {
        assert |a| >= 2;
      }
      assert t[n..] == a[n..] + b;
      WellFormedCut(a[n..], b);
    }
  }
}
