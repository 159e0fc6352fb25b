/**
 The canonical text behind the decision-cache key (`src/apparitor/cache.py`): compact JSON,
 members sorted by key, every character outside printable ASCII escaped. A parser that inverts
 the printer makes the text injective.
 */
module CanonicalText {
  import opened Wrappers
  import opened Json

  // ----- Member order: Python compares strings by code point -----

  predicate KeyLeq(a: string, b: string) {
    a == "" || (b != "" && (a[0] < b[0] || (a[0] == b[0] && KeyLeq(a[1..], b[1..]))))
  }

  lemma {:induction false} KeyLeqAntisymmetric(a: string, b: string)
    requires KeyLeq(a, b) && KeyLeq(b, a)
    ensures a == b
  {
    if a != "" && b != "" {
      KeyLeqAntisymmetric(a[1..], b[1..]);
      assert a == [a[0]] + a[1..] && b == [b[0]] + b[1..];
    }
  }

  lemma {:induction false} KeyLeqTotal(a: string, b: string)
    ensures KeyLeq(a, b) || KeyLeq(b, a)
  {
    if a != "" && b != "" {
      KeyLeqTotal(a[1..], b[1..]);
    }
  }

  lemma {:induction false} KeyLeqTransitive(a: string, b: string, c: string)
    requires KeyLeq(a, b) && KeyLeq(b, c)
    ensures KeyLeq(a, c)
  {
    if a != "" && a[0] == b[0] && b[0] == c[0] {
      KeyLeqTransitive(a[1..], b[1..], c[1..]);
    }
  }

  /** Up to `i` the strings agree, and there `a` has the smaller code point. */
  predicate LessAt(a: string, b: string, i: nat) {
    i < |a| && i < |b| && a[..i] == b[..i] && a[i] < b[i]
  }

  lemma LessAtNext(a: string, b: string, i: nat)
    requires a != "" && b != "" && a[0] == b[0]
    ensures LessAt(a, b, i + 1) <==> LessAt(a[1..], b[1..], i)
  {
    if i < |a[1..]| && i < |b[1..]| {
      assert a[..i + 1] == [a[0]] + a[1..][..i] && b[..i + 1] == [b[0]] + b[1..][..i];
      assert a[1..][..i] == a[..i + 1][1..] && b[1..][..i] == b[..i + 1][1..];
    }
  }

  /** The order is the lexicographic one: a prefix first, otherwise by the first code point that differs. */
  lemma {:induction false} KeyLeqExact(a: string, b: string)
    ensures KeyLeq(a, b) <==> a <= b || exists i: nat :: LessAt(a, b, i)
  {
    if a != "" && b != "" {
      assert a == [a[0]] + a[1..] && b == [b[0]] + b[1..];
      if a[0] == b[0] {
        KeyLeqExact(a[1..], b[1..]);
        forall i: nat ensures LessAt(a, b, i + 1) <==> LessAt(a[1..], b[1..], i) {
          LessAtNext(a, b, i);
        }
        if i: nat :| LessAt(a[1..], b[1..], i) {
          assert LessAt(a, b, i + 1);
        }
        if i: nat :| LessAt(a, b, i) {
          assert i > 0 && LessAt(a[1..], b[1..], i - 1);
        }
      } else {
        DifferentHeads(a, b);
      }
    }
  }

  lemma DifferentHeads(a: string, b: string)
    requires a != "" && b != "" && a[0] != b[0]
    ensures !(a <= b) && ((exists i: nat :: LessAt(a, b, i)) <==> a[0] < b[0])
  {
    if a[0] < b[0] {
      assert LessAt(a, b, 0);
    }
    forall i: nat | LessAt(a, b, i) ensures i == 0 {
      LessAtAgrees(a, b, i);
    }
  }

  lemma LessAtAgrees(a: string, b: string, i: nat)
    requires LessAt(a, b, i)
    ensures i > 0 ==> a[0] == b[0]
  {
    if i > 0 {
      assert a[..i][0] == b[..i][0];
    }
  }

  predicate SortedKeys(ms: seq<Member>) {
    forall i, j :: 0 <= i < j < |ms| ==> KeyLeq(ms[i].key, ms[j].key)
  }

  function Insert(m: Member, ms: seq<Member>): seq<Member> {
    if |ms| == 0 || KeyLeq(m.key, ms[0].key) then [m] + ms else [ms[0]] + Insert(m, ms[1..])
  }

  function SortMembers(ms: seq<Member>): seq<Member> {
    if |ms| == 0 then [] else Insert(ms[0], SortMembers(ms[1..]))
  }

  lemma {:induction false} InsertKeeps(m: Member, ms: seq<Member>)
    requires SortedKeys(ms)
    ensures SortedKeys(Insert(m, ms)) && |Insert(m, ms)| == |ms| + 1
    ensures forall x :: x in Insert(m, ms) <==> x == m || x in ms
    ensures DistinctKeys([m] + ms) ==> DistinctKeys(Insert(m, ms))
  {
    hide KeyLeq;
    if |ms| > 0 && !KeyLeq(m.key, ms[0].key) {
      KeyLeqTotal(m.key, ms[0].key);
      var tail := ms[1..];
      assert ms == [ms[0]] + tail;
      InsertKeeps(m, tail);
      var rest := Insert(m, tail);
      forall i | 0 <= i < |rest| ensures KeyLeq(ms[0].key, rest[i].key) {
        assert rest[i] in rest;
        assert rest[i] == m || rest[i] in tail;
      }
      if DistinctKeys([m] + ms) {
        DistinctTails(m, ms);
        forall i | 0 <= i < |rest| ensures ms[0].key != rest[i].key {
          assert rest[i] in rest;
          assert rest[i] == m || rest[i] in tail;
        }
      }
    } else if |ms| > 0 {
      forall i | 0 <= i < |ms| ensures KeyLeq(m.key, ms[i].key) {
        if i > 0 {
          KeyLeqTransitive(m.key, ms[0].key, ms[i].key);
        }
      }
    }
  }

  lemma DistinctTails(m: Member, ms: seq<Member>)
    requires |ms| > 0 && DistinctKeys([m] + ms)
    ensures m.key != ms[0].key && DistinctKeys(ms) && DistinctKeys([m] + ms[1..])
    ensures forall x :: x in ms[1..] ==> x.key != ms[0].key
  {
    var all := [m] + ms;
    assert all[0] == m && all[1] == ms[0];
    forall i, j | 0 <= i < j < |ms| ensures ms[i].key != ms[j].key {
      assert all[i + 1] == ms[i] && all[j + 1] == ms[j];
    }
    forall j | 1 <= j < |ms| ensures m.key != ms[j].key {
      assert all[0] == m && all[j + 1] == ms[j];
    }
  }

  /** Sorting permutes: every member stays, once, and equal keys are not lost. */
  lemma {:induction false} SortMembersSorts(ms: seq<Member>)
    ensures SortedKeys(SortMembers(ms)) && |SortMembers(ms)| == |ms|
    ensures forall m :: m in SortMembers(ms) <==> m in ms
    ensures DistinctKeys(ms) ==> DistinctKeys(SortMembers(ms))
  {
    if |ms| > 0 {
      var rest := SortMembers(ms[1..]);
      assert ms == [ms[0]] + ms[1..];
      SortMembersSorts(ms[1..]);
      InsertKeeps(ms[0], rest);
      if DistinctKeys(ms) {
        forall i | 0 <= i < |rest| ensures rest[i].key != ms[0].key {
          assert rest[i] in ms[1..];
        }
      }
    }
  }

  /** Two sorted lists that hold the same members, with distinct keys, are the same list. */
  lemma {:induction false} SortedUnique(xs: seq<Member>, ys: seq<Member>)
    requires SortedKeys(xs) && SortedKeys(ys) && DistinctKeys(xs) && DistinctKeys(ys)
    requires forall m :: m in xs <==> m in ys
    ensures xs == ys
  {
    assert |ys| > 0 ==> ys[0] in ys;
    if |xs| == 0 {
    } else {
      assert xs[0] in ys;
      var i :| 0 <= i < |ys| && ys[i] == xs[0];
      assert ys[0] in xs;
      var j :| 0 <= j < |xs| && xs[j] == ys[0];
      if i > 0 && j > 0 {
        KeyLeqAntisymmetric(xs[0].key, ys[0].key);
      }
      TailMembers(xs);
      TailMembers(ys);
      SortedUnique(xs[1..], ys[1..]);
      assert xs == [xs[0]] + xs[1..] && ys == [ys[0]] + ys[1..];
    }
  }

  lemma TailMembers(xs: seq<Member>)
    requires |xs| > 0 && DistinctKeys(xs)
    ensures forall m :: m in xs[1..] <==> m in xs && m != xs[0]
  {
    assert xs == [xs[0]] + xs[1..];
  }

  /** The document with the members of every object sorted by key. */
  function Canon(d: Json): Json {
    match d
    case Arr(items) => Arr(seq(|items|, i requires 0 <= i < |items| => Canon(items[i])))
    case Obj(ms) => Obj(SortMembers(CanonMembers(ms)))
    case _ => d
  }

  function CanonMembers(ms: seq<Member>): (cs: seq<Member>)
    ensures |cs| == |ms|
  {
    seq(|ms|, i requires 0 <= i < |ms| => Member(ms[i].key, Canon(ms[i].val)))
  }

  // ----- The printer -----

  type Unit = u: int | 0 <= u < 0x10000

  function Digit(k: int): char
    requires 0 <= k < 16
  {
    "0123456789abcdef"[k]
  }

  function Decimal(n: nat): string {
    if n < 10 then [Digit(n)] else Decimal(n / 10) + [Digit(n % 10)]
  }

  /** Astral characters become a surrogate pair. */
  function Units(c: char): seq<Unit> {
    var n := c as int;
    if n < 0x10000 then [n] else [0xD800 + (n - 0x10000) / 0x400, 0xDC00 + (n - 0x10000) % 0x400]
  }

  function Utf16(s: string): seq<Unit> {
    if s == "" then [] else Units(s[0]) + Utf16(s[1..])
  }

  /** String escaping of section 7 of RFC 8259, ASCII output only. */
  function Escape(u: Unit): string {
    if u == 0x22 then "\\\"" else if u == 0x5C then "\\\\"
    else if u == 0x0A then "\\n" else if u == 0x0D then "\\r" else if u == 0x09 then "\\t"
    else if u == 0x0C then "\\f" else if u == 0x08 then "\\b"
    else if 0x20 <= u <= 0x7E then [u as char]
    else "\\u" + [Digit(u / 0x1000), Digit(u / 0x100 % 16), Digit(u / 0x10 % 16), Digit(u % 16)]
  }

  function EscapeAll(us: seq<Unit>): string {
    if |us| == 0 then "" else Escape(us[0]) + EscapeAll(us[1..])
  }

  function Quote(s: string): string {
    "\"" + EscapeAll(Utf16(s)) + "\""
  }

  function Print(d: Json): string {
    match d
    case Null => "null"
    case Bool(b) => if b then "true" else "false"
    case Num(n) => if n < 0 then "-" + Decimal(-n) else Decimal(n)
    case Str(s) => Quote(s)
    case Arr(items) => "[" + PrintItems(items) + "]"
    case Obj(ms) => "{" + PrintMembers(ms) + "}"
  }

  function PrintItems(items: seq<Json>): string {
    if |items| == 0 then "" else if |items| == 1 then Print(items[0])
    else Print(items[0]) + "," + PrintItems(items[1..])
  }

  function PrintMembers(ms: seq<Member>): string {
    if |ms| == 0 then "" else if |ms| == 1 then Quote(ms[0].key) + ":" + Print(ms[0].val)
    else Quote(ms[0].key) + ":" + Print(ms[0].val) + "," + PrintMembers(ms[1..])
  }

  /** `json.dumps` with sorted keys and compact separators. */
  function Dumps(d: Json): string {
    Print(Canon(d))
  }

  // ----- A parser for printed text -----

  predicate IsDigit(c: char) {
    '0' <= c <= '9'
  }

  function ReadNat(t: string, acc: nat): (r: (nat, string))
    ensures |r.1| <= |t|
    ensures t != "" && IsDigit(t[0]) ==> |r.1| < |t|
  {
    if t != "" && IsDigit(t[0]) then ReadNat(t[1..], 10 * acc + (t[0] as int - '0' as int)) else (acc, t)
  }

  function HexValue(c: char): (r: Option<int>)
    ensures r.Some? ==> 0 <= r.value < 16
  {
    if IsDigit(c) then Some(c as int - '0' as int)
    else if 'a' <= c <= 'f' then Some(c as int - 'a' as int + 10) else None
  }

  function ReadHex(t: string): (r: Option<(Unit, string)>)
    ensures r.Some? ==> |r.value.1| < |t|
  {
    if |t| < 4 then None else
    match (HexValue(t[0]), HexValue(t[1]), HexValue(t[2]), HexValue(t[3]))
    case (Some(a), Some(b), Some(c), Some(d)) => Some((a * 0x1000 + b * 0x100 + c * 0x10 + d, t[4..]))
    case _ => None
  }

  function ReadUnit(t: string): (r: Option<(Unit, string)>)
    ensures r.Some? ==> |r.value.1| < |t|
  {
    if t == "" then None
    else if t[0] != '\\' then (if 0x20 <= t[0] as int <= 0x7E then Some((t[0] as int, t[1..])) else None)
    else if |t| < 2 then None
    else match t[1]
      case '\"' => Some((0x22, t[2..]))
      case '\\' => Some((0x5C, t[2..]))
      case 'n' => Some((0x0A, t[2..]))
      case 'r' => Some((0x0D, t[2..]))
      case 't' => Some((0x09, t[2..]))
      case 'f' => Some((0x0C, t[2..]))
      case 'b' => Some((0x08, t[2..]))
      case 'u' => ReadHex(t[2..])
      case _ => None
  }

  function ReadUnits(t: string): (r: Option<(seq<Unit>, string)>)
    ensures r.Some? ==> |r.value.1| < |t|
  {
    if t == "" then None
    else if t[0] == '\"' then Some(([], t[1..]))
    else match ReadUnit(t)
      case None => None
      case Some(one) =>
        match ReadUnits(one.1)
        case None => None
        case Some(more) => Some(([one.0] + more.0, more.1))
  }

  function Astral(high: int, low: int): char
    requires 0xD800 <= high < 0xDC00 && 0xDC00 <= low < 0xE000
  {
    (0x10000 + (high - 0xD800) * 0x400 + (low - 0xDC00)) as char
  }

  function FromUtf16(us: seq<Unit>): Option<string> {
    if |us| == 0 then Some("")
    else if us[0] < 0xD800 || 0xE000 <= us[0] then
      match FromUtf16(us[1..])
      case None => None
      case Some(s) => Some([us[0] as char] + s)
    else if us[0] < 0xDC00 && |us| > 1 && 0xDC00 <= us[1] < 0xE000 then
      match FromUtf16(us[2..])
      case None => None
      case Some(s) => Some([Astral(us[0], us[1])] + s)
    else None
  }

  /** Reads a string whose opening quote is already consumed. */
  function ReadString(t: string): (r: Option<(string, string)>)
    ensures r.Some? ==> |r.value.1| < |t|
  {
    match ReadUnits(t)
    case None => None
    case Some(us) =>
      match FromUtf16(us.0)
      case None => None
      case Some(s) => Some((s, us.1))
  }

  function ReadValue(t: string): (r: Option<(Json, string)>)
    ensures r.Some? ==> |r.value.1| < |t|
    decreases |t|, 0
  {
    if t == "" then None
    else if IsDigit(t[0]) then var r := ReadNat(t, 0); Some((Num(r.0), r.1))
    else match t[0]
      case '-' => var r := ReadNat(t[1..], 0); Some((Num(-(r.0 as int)), r.1))
      case 'n' => if "null" <= t then Some((Null, t[4..])) else None
      case 't' => if "true" <= t then Some((Bool(true), t[4..])) else None
      case 'f' => if "false" <= t then Some((Bool(false), t[5..])) else None
      case '\"' => (match ReadString(t[1..]) case None => None case Some(s) => Some((Str(s.0), s.1)))
      case '[' =>
        if |t| > 1 && t[1] == ']' then Some((Arr([]), t[2..])) else
        (match ReadItems(t[1..]) case None => None case Some(xs) => Some((Arr(xs.0), xs.1)))
      case '{' =>
        if |t| > 1 && t[1] == '}' then Some((Obj([]), t[2..])) else
        (match ReadMembers(t[1..]) case None => None case Some(ms) => Some((Obj(ms.0), ms.1)))
      case _ => None
  }

  function ReadItems(t: string): (r: Option<(seq<Json>, string)>)
    ensures r.Some? ==> |r.value.1| < |t|
    decreases |t|, 1
  {
    match ReadValue(t)
    case None => None
    case Some(v) =>
      if v.1 == "" then None
      else if v.1[0] == ']' then Some(([v.0], v.1[1..]))
      else if v.1[0] == ',' then
        (match ReadItems(v.1[1..]) case None => None case Some(more) => Some(([v.0] + more.0, more.1)))
      else None
  }

  function ReadMembers(t: string): (r: Option<(seq<Member>, string)>)
    ensures r.Some? ==> |r.value.1| < |t|
    decreases |t|, 1
  {
    if t == "" || t[0] != '\"' then None else
    match ReadString(t[1..])
    case None => None
    case Some(k) =>
      if k.1 == "" || k.1[0] != ':' then None else
      match ReadValue(k.1[1..])
      case None => None
      case Some(v) =>
        if v.1 == "" then None
        else if v.1[0] == '}' then Some(([Member(k.0, v.0)], v.1[1..]))
        else if v.1[0] == ',' then
          (match ReadMembers(v.1[1..]) case None => None case Some(more) => Some(([Member(k.0, v.0)] + more.0, more.1)))
        else None
  }

  /** The whole text must be one value. */
  function Parse(t: string): Option<Json> {
    match ReadValue(t)
    case None => None
    case Some(v) => if v.1 == "" then Some(v.0) else None
  }

  // ----- The parser inverts the printer -----

  lemma DigitValue(k: int)
    requires 0 <= k < 16
    ensures HexValue(Digit(k)) == Some(k)
    ensures k < 10 ==> IsDigit(Digit(k)) && Digit(k) as int - '0' as int == k
  {
    assert Digit(k) in "0123456789abcdef";
  }

  lemma {:induction false} ReadNatDecimal(n: nat, u: string)
    ensures ReadNat(Decimal(n) + u, 0) == ReadNat(u, n)
    ensures Decimal(n) != "" && IsDigit(Decimal(n)[0])
  {
    if n < 10 {
      DigitValue(n);
      assert (Decimal(n) + u)[1..] == u;
    } else {
      DigitValue(n % 10);
      ReadNatDecimal(n / 10, [Digit(n % 10)] + u);
      assert Decimal(n) + u == Decimal(n / 10) + ([Digit(n % 10)] + u);
      assert ([Digit(n % 10)] + u)[1..] == u;
    }
  }

  lemma HexDigits(u: Unit)
    ensures u == u / 0x1000 * 0x1000 + u / 0x100 % 16 * 0x100 + u / 0x10 % 16 * 0x10 + u % 16
  {
    assert u / 0x10 / 16 == u / 0x100;
    assert u / 0x100 / 16 == u / 0x1000;
  }

  lemma ReadHexDigits(u: Unit, rest: string)
    ensures ReadHex([Digit(u / 0x1000), Digit(u / 0x100 % 16), Digit(u / 0x10 % 16), Digit(u % 16)] + rest) == Some((u, rest))
  {
    DigitValue(u / 0x1000);
    DigitValue(u / 0x100 % 16);
    DigitValue(u / 0x10 % 16);
    DigitValue(u % 16);
    HexDigits(u);
    var hex := [Digit(u / 0x1000), Digit(u / 0x100 % 16), Digit(u / 0x10 % 16), Digit(u % 16)];
    assert (hex + rest)[4..] == rest;
  }

  lemma ReadUnitEscape(u: Unit, rest: string)
    ensures ReadUnit(Escape(u) + rest) == Some((u, rest))
    ensures Escape(u) != "" && Escape(u)[0] != '\"'
  {
    hide ReadHex, Digit;
    var t := Escape(u) + rest;
    if u in {0x22, 0x5C, 0x0A, 0x0D, 0x09, 0x0C, 0x08} {
      assert t[2..] == rest;
    } else if 0x20 <= u <= 0x7E {
      assert t[1..] == rest;
    } else {
      ReadHexDigits(u, rest);
      assert t[2..] == [Digit(u / 0x1000), Digit(u / 0x100 % 16), Digit(u / 0x10 % 16), Digit(u % 16)] + rest;
    }
  }

  lemma ReadUnitsStep(u: Unit, one: string, us: seq<Unit>, tail: string, rest: string)
    requires one != "" && one[0] != '\"' && ReadUnit(one + tail) == Some((u, tail))
    requires ReadUnits(tail) == Some((us, rest))
    ensures ReadUnits(one + tail) == Some(([u] + us, rest))
  {
    hide ReadUnit;
  }

  lemma {:induction false} ReadUnitsEscapeAll(us: seq<Unit>, rest: string)
    ensures ReadUnits(EscapeAll(us) + "\"" + rest) == Some((us, rest))
  {
    hide Escape, ReadUnit;
    if |us| == 0 {
      assert EscapeAll(us) + "\"" + rest == "\"" + rest;
      assert ("\"" + rest)[1..] == rest;
    } else {
      hide ReadUnits;
      var tail := EscapeAll(us[1..]) + "\"" + rest;
      ReadUnitsEscapeAll(us[1..], rest);
      ReadUnitEscape(us[0], tail);
      ReadUnitsStep(us[0], Escape(us[0]), us[1..], tail, rest);
      assert EscapeAll(us) + "\"" + rest == Escape(us[0]) + tail;
      assert us == [us[0]] + us[1..];
    }
  }

  lemma {:induction false} FromUtf16Utf16(s: string)
    ensures FromUtf16(Utf16(s)) == Some(s)
  {
    if s != "" {
      FromUtf16Utf16(s[1..]);
      var us := Utf16(s);
      assert s == [s[0]] + s[1..];
      if s[0] as int < 0x10000 {
        assert us[1..] == Utf16(s[1..]);
      } else {
        assert us[2..] == Utf16(s[1..]);
      }
    }
  }

  lemma ReadStringQuote(s: string, rest: string)
    ensures |Quote(s)| >= 2 && Quote(s)[0] == '\"'
    ensures ReadString((Quote(s) + rest)[1..]) == Some((s, rest))
  {
    hide ReadUnits, EscapeAll, FromUtf16, Utf16;
    ReadUnitsEscapeAll(Utf16(s), rest);
    FromUtf16Utf16(s);
    assert (Quote(s) + rest)[1..] == EscapeAll(Utf16(s)) + "\"" + rest;
  }

  /** What may follow a printed value: nothing, or a structural character. */
  predicate Stops(rest: string) {
    rest == "" || rest[0] in ",]}"
  }

  lemma PrintStarts(d: Json)
    ensures Print(d) != "" && Print(d)[0] !in ",]}:"
  {
    match d
    case Num(n) => ReadNatDecimal(if n < 0 then -n else n, "");
    case _ =>
  }

  lemma {:induction false} ReadValuePrint(d: Json, rest: string)
    requires Stops(rest)
    ensures ReadValue(Print(d) + rest) == Some((d, rest))
    decreases d
  {
    match d
    case Num(n) => ReadNumberPrint(n, rest);
    case Arr(items) =>
      if |items| > 0 {
        ReadItemsPrint(items, rest);
      }
      ReadArrayText(items, PrintItems(items), rest);
    case Obj(ms) =>
      if |ms| > 0 {
        ReadMembersPrint(ms, rest);
      }
      ReadObjectText(ms, PrintMembers(ms), rest);
    case _ => ReadScalarPrint(d, rest);
  }

  lemma ReadScalarPrint(d: Json, rest: string)
    requires d.Null? || d.Bool? || d.Str?
    ensures ReadValue(Print(d) + rest) == Some((d, rest))
  {
    var t := Print(d) + rest;
    match d
    case Null => assert t[4..] == rest;
    case Bool(b) => assert t[if b then 4 else 5..] == rest;
    case Str(s) => ReadStringQuote(s, rest);
  }

  lemma ReadArrayText(items: seq<Json>, text: string, rest: string)
    requires |items| == 0 ==> text == ""
    requires |items| > 0 ==> text != "" && text[0] != ']' && ReadItems(text + "]" + rest) == Some((items, rest))
    ensures ReadValue("[" + text + "]" + rest) == Some((Arr(items), rest))
  {
    hide ReadItems, ReadMembers, ReadString, ReadNat;
    var t := "[" + text + "]" + rest;
    if |items| == 0 {
      assert t[2..] == rest;
    } else {
      assert t[1] == text[0];
      assert t[1..] == text + "]" + rest;
    }
  }

  lemma ReadObjectText(ms: seq<Member>, text: string, rest: string)
    requires |ms| == 0 ==> text == ""
    requires |ms| > 0 ==> text != "" && text[0] != '}' && ReadMembers(text + "}" + rest) == Some((ms, rest))
    ensures ReadValue("{" + text + "}" + rest) == Some((Obj(ms), rest))
  {
    hide ReadItems, ReadMembers, ReadString, ReadNat;
    var t := "{" + text + "}" + rest;
    if |ms| == 0 {
      assert t[2..] == rest;
    } else {
      assert t[1] == text[0];
      assert t[1..] == text + "}" + rest;
    }
  }

  lemma ReadNumberPrint(n: int, rest: string)
    requires Stops(rest)
    ensures ReadValue(Print(Num(n)) + rest) == Some((Num(n), rest))
  {
    hide Decimal, ReadString, ReadItems, ReadMembers;
    var t := Print(Num(n)) + rest;
    if n < 0 {
      ReadNatDecimal(-n, rest);
      assert t[1..] == Decimal(-n) + rest;
      assert ReadNat(rest, -n) == (-n, rest);
    } else {
      ReadNatDecimal(n, rest);
      assert t == Decimal(n) + rest;
      assert ReadNat(rest, n) == (n, rest);
    }
  }

  /** One step of the array reader: `one` is the text of `v`, `more` is empty or a comma and the text of `vs`. */
  lemma ReadItemsStep(one: string, v: Json, more: string, vs: seq<Json>, rest: string)
    requires ReadValue(one + (more + "]" + rest)) == Some((v, more + "]" + rest))
    requires if |vs| == 0 then more == ""
             else more != "" && more[0] == ',' && ReadItems(more[1..] + "]" + rest) == Some((vs, rest))
    ensures ReadItems(one + more + "]" + rest) == Some(([v] + vs, rest))
  {
    hide ReadValue, ReadMembers;
    var after := more + "]" + rest;
    assert one + more + "]" + rest == one + after;
    if |vs| == 0 {
      assert [v] + vs == [v];
      assert after[1..] == rest;
    } else {
      assert after[1..] == more[1..] + "]" + rest;
    }
  }

  lemma ReadMembersStep(key: string, one: string, v: Json, more: string, vs: seq<Member>, rest: string)
    requires ReadValue(one + (more + "}" + rest)) == Some((v, more + "}" + rest))
    requires if |vs| == 0 then more == ""
             else more != "" && more[0] == ',' && ReadMembers(more[1..] + "}" + rest) == Some((vs, rest))
    ensures ReadMembers(Quote(key) + ":" + one + more + "}" + rest) == Some(([Member(key, v)] + vs, rest))
  {
    hide ReadValue, ReadItems, ReadString, Quote;
    var after := more + "}" + rest;
    var value := ":" + (one + after);
    var t := Quote(key) + value;
    ReadStringQuote(key, value);
    assert Quote(key) + ":" + one + more + "}" + rest == t;
    assert value[1..] == one + after;
    if |vs| == 0 {
      assert [Member(key, v)] + vs == [Member(key, v)];
      assert after[1..] == rest;
    } else {
      assert after[1..] == more[1..] + "}" + rest;
    }
  }

  lemma {:induction false} ReadItemsPrint(items: seq<Json>, rest: string)
    requires |items| > 0
    ensures PrintItems(items) != "" && PrintItems(items)[0] !in ",]}:"
    ensures ReadItems(PrintItems(items) + "]" + rest) == Some((items, rest))
    decreases items
  {
    hide ReadValue, ReadItems, ReadMembers, Print;
    PrintStarts(items[0]);
    var more := if |items| == 1 then "" else "," + PrintItems(items[1..]);
    ReadValuePrint(items[0], more + "]" + rest);
    if |items| > 1 {
      ReadItemsPrint(items[1..], rest);
      assert more[1..] == PrintItems(items[1..]);
    }
    ReadItemsStep(Print(items[0]), items[0], more, items[1..], rest);
    assert PrintItems(items) == Print(items[0]) + more;
    assert items == [items[0]] + items[1..];
  }

  lemma {:induction false} ReadMembersPrint(ms: seq<Member>, rest: string)
    requires |ms| > 0
    ensures PrintMembers(ms) != "" && PrintMembers(ms)[0] == '\"'
    ensures ReadMembers(PrintMembers(ms) + "}" + rest) == Some((ms, rest))
    decreases ms
  {
    hide ReadValue, ReadItems, ReadMembers, Print, Quote;
    var m := ms[0];
    ReadStringQuote(m.key, "");
    var more := if |ms| == 1 then "" else "," + PrintMembers(ms[1..]);
    ReadValuePrint(m.val, more + "}" + rest);
    if |ms| > 1 {
      ReadMembersPrint(ms[1..], rest);
      assert more[1..] == PrintMembers(ms[1..]);
    }
    ReadMembersStep(m.key, Print(m.val), m.val, more, ms[1..], rest);
    assert PrintMembers(ms) == Quote(m.key) + ":" + Print(m.val) + more;
    assert ms == [m] + ms[1..];
  }

  lemma ParsePrint(d: Json)
    ensures Parse(Print(d)) == Some(d)
  {
    ReadValuePrint(d, "");
    assert Print(d) + "" == Print(d);
  }

  // ----- Equal text is equal value -----

  lemma {:induction false} CanonLoads(d: Json)
    requires NoRepeats(d)
    ensures NoRepeats(Canon(d)) && Load(Canon(d)) == Load(d)
  {
    match d
    case Arr(items) =>
      forall i | 0 <= i < |items| ensures NoRepeats(Canon(items[i])) && Load(Canon(items[i])) == Load(items[i]) {
        CanonLoads(items[i]);
      }
    case Obj(ms) =>
      forall i | 0 <= i < |ms| ensures NoRepeats(Canon(ms[i].val)) && Load(Canon(ms[i].val)) == Load(ms[i].val) {
        CanonLoads(ms[i].val);
      }
      CanonMembersLoad(ms);
    case _ =>
  }

  lemma CanonMembersLoad(ms: seq<Member>)
    requires DistinctKeys(ms)
    requires forall i :: 0 <= i < |ms| ==> NoRepeats(Canon(ms[i].val)) && Load(Canon(ms[i].val)) == Load(ms[i].val)
    ensures NoRepeats(Obj(SortMembers(CanonMembers(ms))))
    ensures LoadMembers(SortMembers(CanonMembers(ms))) == LoadMembers(ms)
  {
    hide SortMembers, Canon, Load, LoadMembers, NoRepeats, SortedKeys;
    var cs := CanonMembers(ms);
    SortMembersSorts(cs);
    var ss := SortMembers(cs);
    SameMembersLoadEqual(cs, ss);
    LoadPointwise(ms, cs);
    forall i | 0 <= i < |ss| ensures NoRepeats(ss[i].val) {
      assert ss[i] in cs;
    }
    NoRepeatsObject(ss);
  }

  lemma NoRepeatsObject(ms: seq<Member>)
    requires DistinctKeys(ms) && forall i :: 0 <= i < |ms| ==> NoRepeats(ms[i].val)
    ensures NoRepeats(Obj(ms))
  {
  }

  lemma SameMembersLoadEqual(xs: seq<Member>, ys: seq<Member>)
    requires DistinctKeys(xs) && DistinctKeys(ys)
    requires forall m :: m in xs <==> m in ys
    ensures LoadMembers(xs) == LoadMembers(ys)
  {
    LoadMembersKeys(xs);
    LoadMembersKeys(ys);
    forall k ensures k in LoadMembers(xs) <==> k in LoadMembers(ys) {
      if i :| 0 <= i < |xs| && xs[i].key == k {
        assert xs[i] in ys;
      }
      if j :| 0 <= j < |ys| && ys[j].key == k {
        assert ys[j] in xs;
      }
    }
    forall k | k in LoadMembers(xs) ensures LoadMembers(xs)[k] == LoadMembers(ys)[k] {
      var i :| 0 <= i < |xs| && xs[i].key == k;
      assert xs[i] in ys;
      var j :| 0 <= j < |ys| && ys[j] == xs[i];
      LoadMembersAt(xs, i);
      LoadMembersAt(ys, j);
    }
  }

  lemma {:induction false} LoadPointwise(xs: seq<Member>, ys: seq<Member>)
    requires |xs| == |ys|
    requires forall i :: 0 <= i < |xs| ==> xs[i].key == ys[i].key && Load(xs[i].val) == Load(ys[i].val)
    ensures LoadMembers(xs) == LoadMembers(ys)
  {
    if |xs| > 0 {
      LoadPointwise(xs[..|xs| - 1], ys[..|ys| - 1]);
    }
  }

  /** Documents that load to equal values have the same canonical form. */
  lemma {:induction false} EqualValuesShareCanon(a: Json, b: Json)
    requires NoRepeats(a) && NoRepeats(b) && Load(a) == Load(b)
    ensures Canon(a) == Canon(b)
  {
    match a
    case Arr(xs) =>
      var va, vb := Load(a).items, Load(b).items;
      forall i | 0 <= i < |xs| ensures Canon(xs[i]) == Canon(b.items[i]) {
        assert va[i] == Load(xs[i]) && vb[i] == Load(b.items[i]);
        EqualValuesShareCanon(xs[i], b.items[i]);
      }
    case Obj(ms) =>
      var ns := b.members;
      forall i, j | 0 <= i < |ms| && 0 <= j < |ns| && ms[i].key == ns[j].key
        ensures Canon(ms[i].val) == Canon(ns[j].val)
      {
        LoadMembersAt(ms, i);
        LoadMembersAt(ns, j);
        EqualValuesShareCanon(ms[i].val, ns[j].val);
      }
      CanonMembersMatch(ms, ns);
      CanonMembersMatch(ns, ms);
      var xs, ys := CanonMembers(ms), CanonMembers(ns);
      SortMembersSorts(xs);
      SortMembersSorts(ys);
      SortedUnique(SortMembers(xs), SortMembers(ys));
    case _ =>
  }

  lemma CanonMembersMatch(ms: seq<Member>, ns: seq<Member>)
    requires LoadMembers(ms) == LoadMembers(ns)
    requires forall i, j :: 0 <= i < |ms| && 0 <= j < |ns| && ms[i].key == ns[j].key ==> Canon(ms[i].val) == Canon(ns[j].val)
    ensures forall m :: m in CanonMembers(ms) ==> m in CanonMembers(ns)
  {
    LoadMembersKeys(ms);
    LoadMembersKeys(ns);
    forall m | m in CanonMembers(ms) ensures m in CanonMembers(ns) {
      var i :| 0 <= i < |ms| && CanonMembers(ms)[i] == m;
      assert ms[i].key in LoadMembers(ms);
      var j :| 0 <= j < |ns| && ns[j].key == ms[i].key;
      assert CanonMembers(ns)[j] == m;
    }
  }

  /** The canonical text separates values, and only values. */
  lemma DumpsInjective(a: Json, b: Json)
    requires NoRepeats(a) && NoRepeats(b)
    ensures Dumps(a) == Dumps(b) <==> Load(a) == Load(b)
  {
    if Dumps(a) == Dumps(b) {
      ParsePrint(Canon(a));
      ParsePrint(Canon(b));
      CanonLoads(a);
      CanonLoads(b);
    }
    if Load(a) == Load(b) {
      EqualValuesShareCanon(a, b);
    }
  }
}
