/**
 Where the canonical text stops telling strings apart. A Python string is any sequence of code points, surrogates
 included; the text of `src/apparitor/cache.py` shows its UTF-16 units only.
 */
module CodePoints {
  import opened CanonicalText

  type CodePoint = c: int | 0 <= c <= 0x10FFFF witness 0

  /** A character outside the basic plane is escaped as two surrogates, a lone surrogate as itself. */
  function UnitsOf(c: CodePoint): seq<Unit> {
    if c < 0x10000 then [c] else [0xD800 + (c - 0x10000) / 0x400, 0xDC00 + (c - 0x10000) % 0x400]
  }

  function Utf16Of(s: seq<CodePoint>): seq<Unit> {
    if |s| == 0 then [] else UnitsOf(s[0]) + Utf16Of(s[1..])
  }

  /** The text of a string inside the canonical text. */
  function TextOf(s: seq<CodePoint>): string {
    "\"" + EscapeAll(Utf16Of(s)) + "\""
  }

  function Chars(s: string): (cs: seq<CodePoint>)
    ensures |cs| == |s| && forall i :: 0 <= i < |s| ==> cs[i] == s[i] as int
  {
    seq(|s|, i requires 0 <= i < |s| => s[i] as int)
  }

  /** On strings without surrogates this is the text of the printer. */
  lemma {:induction false} TextIsQuote(s: string)
    ensures Utf16Of(Chars(s)) == Utf16(s) && TextOf(Chars(s)) == Quote(s)
  {
    if s != "" {
      TextIsQuote(s[1..]);
      assert Chars(s)[1..] == Chars(s[1..]);
    }
  }

  predicate High(u: int) {
    0xD800 <= u < 0xDC00
  }

  predicate Low(u: int) {
    0xDC00 <= u < 0xE000
  }

  /** Position `i` holds two units that read as one character: an astral character, or its two surrogates. */
  predicate PairAt(s: seq<CodePoint>, i: nat) {
    i < |s| && (s[i] >= 0x10000 || (i + 1 < |s| && High(s[i]) && Low(s[i + 1])))
  }

  /** The two surrogates stand as code points of their own. */
  predicate SplitAt(s: seq<CodePoint>, i: nat) {
    PairAt(s, i) && s[i] < 0x10000
  }

  lemma TextExact(a: seq<CodePoint>, b: seq<CodePoint>)
    ensures TextOf(a) == TextOf(b) <==> Utf16Of(a) == Utf16Of(b)
  {
    ReadUnitsEscapeAll(Utf16Of(a), "");
    ReadUnitsEscapeAll(Utf16Of(b), "");
    assert TextOf(a) == "\"" + (EscapeAll(Utf16Of(a)) + "\"" + "");
    assert TextOf(b) == "\"" + (EscapeAll(Utf16Of(b)) + "\"" + "");
    if TextOf(a) == TextOf(b) {
      assert TextOf(a)[1..] == EscapeAll(Utf16Of(a)) + "\"" + "";
      assert TextOf(b)[1..] == EscapeAll(Utf16Of(b)) + "\"" + "";
    }
  }

  /** Strings that split no pair are told apart. */
  lemma {:induction false} Utf16OfInjective(a: seq<CodePoint>, b: seq<CodePoint>)
    requires forall i: nat :: !SplitAt(a, i) && !SplitAt(b, i)
    requires Utf16Of(a) == Utf16Of(b)
    ensures a == b
  {
    if |a| > 0 && |b| > 0 {
      assert !SplitAt(a, 0) && !SplitAt(b, 0);
      assert Utf16Of(a)[0] == UnitsOf(a[0])[0] && Utf16Of(b)[0] == UnitsOf(b[0])[0];
      FirstUnits(a, b);
      forall i: nat ensures !SplitAt(a[1..], i) && !SplitAt(b[1..], i) {
        assert !SplitAt(a, i + 1) && !SplitAt(b, i + 1);
      }
      assert Utf16Of(a)[|UnitsOf(a[0])|..] == Utf16Of(a[1..]);
      assert Utf16Of(b)[|UnitsOf(b[0])|..] == Utf16Of(b[1..]);
      Utf16OfInjective(a[1..], b[1..]);
      assert a == [a[0]] + a[1..] && b == [b[0]] + b[1..];
    }
  }

  lemma FirstUnits(a: seq<CodePoint>, b: seq<CodePoint>)
    requires |a| > 0 && |b| > 0 && !SplitAt(a, 0) && !SplitAt(b, 0) && Utf16Of(a) == Utf16Of(b)
    ensures a[0] == b[0]
  {
    SecondUnit(a);
    SecondUnit(b);
  }

  /** What follows the first unit of a string: the rest of its character, or the first unit of the next one. */
  lemma SecondUnit(s: seq<CodePoint>)
    requires |s| > 0
    ensures var us := Utf16Of(s);
      && |us| > 0 && us[0] == UnitsOf(s[0])[0]
      && (s[0] >= 0x10000 ==> |us| > 1 && us[1] == UnitsOf(s[0])[1])
      && (s[0] < 0x10000 && |us| > 1 ==> |s| > 1 && us[1] == UnitsOf(s[1])[0])
  {
  }

  lemma {:induction false} Utf16OfConcat(a: seq<CodePoint>, b: seq<CodePoint>)
    ensures Utf16Of(a + b) == Utf16Of(a) + Utf16Of(b)
  {
    if |a| == 0 {
      assert a + b == b;
    } else {
      assert (a + b)[1..] == a[1..] + b;
      Utf16OfConcat(a[1..], b);
    }
  }

  /** The other way to write the pair at `i`: split when it is one character, joined when it is two. */
  function Twin(s: seq<CodePoint>, i: nat): seq<CodePoint>
    requires PairAt(s, i)
  {
    if s[i] >= 0x10000 then s[..i] + [UnitsOf(s[i])[0], UnitsOf(s[i])[1]] + s[i + 1..]
    else s[..i] + [0x10000 + (s[i] - 0xD800) * 0x400 + (s[i + 1] - 0xDC00)] + s[i + 2..]
  }

  lemma TwinSharesText(s: seq<CodePoint>, i: nat)
    requires PairAt(s, i)
    ensures Twin(s, i) != s && TextOf(Twin(s, i)) == TextOf(s)
  {
    var pair := if s[i] >= 0x10000 then [s[i]] else [s[i], s[i + 1]];
    var other := if s[i] >= 0x10000 then [UnitsOf(s[i])[0], UnitsOf(s[i])[1]]
                 else [0x10000 + (s[i] - 0xD800) * 0x400 + (s[i + 1] - 0xDC00)];
    PairUnits(pair, other);
    assert s == s[..i] + pair + s[i + |pair|..];
    Utf16OfConcat(s[..i] + pair, s[i + |pair|..]);
    Utf16OfConcat(s[..i], pair);
    Utf16OfConcat(s[..i] + other, s[i + |pair|..]);
    Utf16OfConcat(s[..i], other);
    TextExact(Twin(s, i), s);
  }

  lemma PairUnits(pair: seq<CodePoint>, other: seq<CodePoint>)
    requires if |pair| == 1 then pair[0] >= 0x10000 && other == [UnitsOf(pair[0])[0], UnitsOf(pair[0])[1]]
             else |pair| == 2 && High(pair[0]) && Low(pair[1])
                  && other == [0x10000 + (pair[0] - 0xD800) * 0x400 + (pair[1] - 0xDC00)]
    ensures Utf16Of(pair) == Utf16Of(other)
  {
    var one, two := if |pair| == 1 then pair else other, if |pair| == 1 then other else pair;
    assert one[1..] == [] && two[1..] == [two[1]] && two[1..][1..] == [];
    assert Utf16Of(one) == UnitsOf(one[0]);
    assert Utf16Of(two) == UnitsOf(two[0]) + UnitsOf(two[1]);
  }

  /**
   A string shares its text with another one exactly when it holds a character outside the basic plane, or the two
   surrogates of one; every other string, lone surrogates included, has a text of its own.
   */
  lemma SharedTextExact(a: seq<CodePoint>)
    ensures (exists b :: b != a && TextOf(b) == TextOf(a)) <==> exists i: nat :: PairAt(a, i)
  {
    if i: nat :| PairAt(a, i) {
      TwinSharesText(a, i);
    } else if b :| b != a && TextOf(b) == TextOf(a) {
      TextExact(a, b);
      if i: nat :| PairAt(b, i) {
        PairsShow(b, i);
        PairsShowOnly(a);
      } else {
        Utf16OfInjective(a, b);
      }
    }
  }

  /** Somewhere in the units a high surrogate is followed by a low one. */
  predicate PairedUnits(us: seq<Unit>, k: nat) {
    k + 1 < |us| && High(us[k]) && Low(us[k + 1])
  }

  lemma PairsShow(s: seq<CodePoint>, i: nat)
    requires PairAt(s, i)
    ensures exists k: nat :: PairedUnits(Utf16Of(s), k)
  {
    Utf16OfConcat(s[..i], s[i..]);
    assert s[..i] + s[i..] == s;
    SecondUnit(s[i..]);
    assert PairedUnits(Utf16Of(s), |Utf16Of(s[..i])|);
  }

  lemma {:induction false} PairsShowOnly(s: seq<CodePoint>)
    requires forall i: nat :: !PairAt(s, i)
    ensures Utf16Of(s) == s && forall k: nat :: !PairedUnits(Utf16Of(s), k)
  {
    PlainUnits(s);
    forall k: nat ensures !PairedUnits(Utf16Of(s), k) {
      assert !PairAt(s, k);
    }
  }

  lemma {:induction false} PlainUnits(s: seq<CodePoint>)
    requires forall i: nat :: !PairAt(s, i)
    ensures Utf16Of(s) == s
  {
    if |s| > 0 {
      assert !PairAt(s, 0);
      forall i: nat ensures !PairAt(s[1..], i) {
        assert !PairAt(s, i + 1);
      }
      PlainUnits(s[1..]);
    }
  }
}
