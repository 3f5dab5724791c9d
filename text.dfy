/**
 * The string operations the integration borrows from Python: `str.strip`,
 * `str.rstrip("/")`, `str.split(sep)`, `str.startswith`, the `in` test for a
 * substring, `str(int)` and `int(str)`.
 */
module Text {
  import opened Wrappers

  /** The characters Python's `str.isspace` (and so `str.strip` and the regular
      expression class `\s`) treats as whitespace. */
  predicate IsSpace(c: char)
  {
    ('\U{9}' <= c <= '\U{D}') || ('\U{1C}' <= c <= '\U{20}') || c == '\U{85}' || c == '\U{A0}'
    || c == '\U{1680}' || ('\U{2000}' <= c <= '\U{200A}') || c == '\U{2028}' || c == '\U{2029}'
    || c == '\U{202F}' || c == '\U{205F}' || c == '\U{3000}'
  }

  predicate AllSpace(s: string)
  {
    forall i :: 0 <= i < |s| ==> IsSpace(s[i])
  }

  /** `s.strip()`: leading, then trailing whitespace removed. The result has
      no whitespace at either end, and it is empty exactly when `s` is all
      whitespace; `StripSlice` shows it is what lies between the two runs. */
  function Strip(s: string): (r: string)
    ensures r == [] || (!IsSpace(r[0]) && !IsSpace(r[|r| - 1]))
    ensures r == [] <==> AllSpace(s)
    decreases |s|
  {
    if |s| > 0 && IsSpace(s[0]) then
      assert forall i :: 0 < i < |s| ==> s[i] == s[1..][i - 1];
      Strip(s[1..])
    else if |s| > 0 && IsSpace(s[|s| - 1]) then
      assert s[..|s| - 1][0] == s[0];
      Strip(s[..|s| - 1])
    else s
  }

  /** `r` is the slice of `s` at `k`, with only whitespace before and
      after it. */
  predicate Between(s: string, r: string, k: nat)
  {
    k + |r| <= |s| && r == s[k..k + |r|] && AllSpace(s[..k]) && AllSpace(s[k + |r|..])
  }

  /** The stripped text is the slice of `s` between a whitespace prefix and
      a whitespace suffix. */
  lemma {:induction false} StripSlice(s: string)
    ensures exists k :: Between(s, Strip(s), k)
    decreases |s|
  {
    var r := Strip(s);
    if |s| > 0 && IsSpace(s[0]) {
      StripSlice(s[1..]);
      var k :| Between(s[1..], r, k);
      BetweenCons(s, r, k);
    } else if |s| > 0 && IsSpace(s[|s| - 1]) {
      StripSlice(s[..|s| - 1]);
      var k :| Between(s[..|s| - 1], r, k);
      BetweenSnoc(s, r, k);
    } else {
      assert s[0..0 + |s|] == s && s[..0] == [] && s[|s|..] == [];
      assert Between(s, r, 0);
    }
  }

  lemma BetweenCons(s: string, r: string, k: nat)
    requires |s| > 0 && IsSpace(s[0]) && Between(s[1..], r, k)
    ensures Between(s, r, k + 1)
  {
    assert s[1..][k..k + |r|] == s[k + 1..k + 1 + |r|];
    assert s[1..][k + |r|..] == s[k + 1 + |r|..];
    assert s[..k + 1] == [s[0]] + s[1..][..k];
  }

  lemma BetweenSnoc(s: string, r: string, k: nat)
    requires |s| > 0 && IsSpace(s[|s| - 1]) && Between(s[..|s| - 1], r, k)
    ensures Between(s, r, k)
  {
    var t := s[..|s| - 1];
    assert t[k..k + |r|] == s[k..k + |r|];
    assert t[..k] == s[..k];
    assert s[k + |r|..] == t[k + |r|..] + [s[|s| - 1]];
  }

  /** Stripping a string that has no whitespace at either end leaves it alone. */
  lemma {:induction false} StripNoSpace(s: string)
    requires s == [] || (!IsSpace(s[0]) && !IsSpace(s[|s| - 1]))
    ensures Strip(s) == s
  {
  }

  /** `s.rstrip(c)` for one character `c`, as `api_url.rstrip("/")` uses it. */
  function RStripChar(s: string, c: char): (r: string)
    ensures |r| <= |s| && r == s[..|r|]
    ensures r == [] || r[|r| - 1] != c
    ensures forall i :: |r| <= i < |s| ==> s[i] == c
  {
    if |s| > 0 && s[|s| - 1] == c then RStripChar(s[..|s| - 1], c) else s
  }

  /** `s.startswith(p)` */
  predicate StartsWith(s: string, p: string)
  {
    |p| <= |s| && s[..|p|] == p
  }

  predicate OccursAt(s: string, sub: string, i: int)
  {
    0 <= i && i + |sub| <= |s| && s[i..i + |sub|] == sub
  }

  /** `sub in s` for strings */
  ghost predicate Contains(s: string, sub: string)
  {
    exists i :: OccursAt(s, sub, i)
  }

  /** The first occurrence of `sub` in `s` at or after `from`. */
  function FindFrom(s: string, sub: string, from: nat): (r: Option<nat>)
    requires from <= |s|
    ensures r.Some? ==> from <= r.value && OccursAt(s, sub, r.value)
    ensures r.Some? ==> forall j :: from <= j < r.value ==> !OccursAt(s, sub, j)
    ensures r.None? ==> forall j :: from <= j ==> !OccursAt(s, sub, j)
    decreases |s| - from
  {
    if OccursAt(s, sub, from) then Some(from)
    else if from + |sub| >= |s| then
      assert forall j :: from < j ==> !OccursAt(s, sub, j);
      None
    else FindFrom(s, sub, from + 1)
  }

  /** A decidable form of `Contains`. */
  function Find(s: string, sub: string): (r: bool)
    ensures r <==> Contains(s, sub)
  {
    FindFrom(s, sub, 0).Some?
  }

  /** The first index at or after `from` holding `c`, as `s.find(c, from)`. */
  function IndexOfFrom(s: string, c: char, from: nat): (r: Option<nat>)
    requires from <= |s|
    ensures r.Some? ==> from <= r.value < |s| && s[r.value] == c
    ensures r.Some? ==> forall k :: from <= k < r.value ==> s[k] != c
    ensures r.None? ==> forall k :: from <= k < |s| ==> s[k] != c
    decreases |s| - from
  {
    if from == |s| then None
    else if s[from] == c then Some(from)
    else IndexOfFrom(s, c, from + 1)
  }

  /** `s.split(sep)` for a one-character separator. */
  function Split(s: string, sep: char): (parts: seq<string>)
    ensures |parts| >= 1
    ensures forall k :: 0 <= k < |parts| ==> sep !in parts[k]
  {
    if |s| == 0 then [""]
    else
      var rest := Split(s[1..], sep);
      if s[0] == sep then [""] + rest
      else [[s[0]] + rest[0]] + rest[1..]
  }

  /** `sep.join(parts)` */
  function Join(parts: seq<string>, sep: char): string
  {
    if |parts| == 0 then ""
    else if |parts| == 1 then parts[0]
    else parts[0] + [sep] + Join(parts[1..], sep)
  }

  /** Splitting and joining again gives back the original string. */
  lemma {:induction false} JoinSplit(s: string, sep: char)
    ensures Join(Split(s, sep), sep) == s
    decreases |s|
  {
    if |s| > 0 {
      var rest := Split(s[1..], sep);
      JoinSplit(s[1..], sep);
      if s[0] == sep {
        assert Split(s, sep) == [""] + rest;
      } else {
        var parts := Split(s, sep);
        assert parts == [[s[0]] + rest[0]] + rest[1..];
        if |rest| == 1 {
          assert Join(parts, sep) == [s[0]] + rest[0];
        } else {
          assert parts[1..] == rest[1..];
          assert Join(parts, sep) == [s[0]] + rest[0] + [sep] + Join(rest[1..], sep);
          assert Join(rest, sep) == rest[0] + [sep] + Join(rest[1..], sep);
        }
      }
    }
  }

  /** Joining parts that do not contain the separator and splitting again gives
      back the parts. */
  lemma {:induction false} SplitJoin(parts: seq<string>, sep: char)
    requires |parts| >= 1
    requires forall k :: 0 <= k < |parts| ==> sep !in parts[k]
    ensures Split(Join(parts, sep), sep) == parts
    decreases |parts|, |parts[0]|
  {
    if |parts[0]| > 0 {
      var tail := [parts[0][1..]] + parts[1..];
      assert forall k :: 0 <= k < |tail| ==> sep !in tail[k] by {
        forall k | 0 <= k < |tail| ensures sep !in tail[k] {
          if k == 0 { assert forall c :: c in parts[0][1..] ==> c in parts[0]; }
          else { assert tail[k] == parts[k]; }
        }
      }
      SplitJoin(tail, sep);
      SplitJoinHead(parts, tail, sep);
    } else if |parts| > 1 {
      SplitJoin(parts[1..], sep);
      SplitJoinEmptyHead(parts, sep);
    }
  }

  /** Two separator-free texts joined by the separator split back into
      the two. */
  lemma {:induction false} SplitTwo(a: string, b: string, sep: char)
    requires sep !in a && sep !in b
    ensures Split(a + [sep] + b, sep) == [a, b]
  {
    assert Join([a, b], sep) == a + [sep] + Join([b], sep);
    SplitJoin([a, b], sep);
  }

  /** A separator-free text splits into itself. */
  lemma {:induction false} SplitOne(a: string, sep: char)
    requires sep !in a
    ensures Split(a, sep) == [a]
  {
    assert Join([a], sep) == a;
    SplitJoin([a], sep);
  }

  lemma SplitJoinHead(parts: seq<string>, tail: seq<string>, sep: char)
    requires |parts| >= 1 && |parts[0]| > 0 && parts[0][0] != sep
    requires tail == [parts[0][1..]] + parts[1..]
    requires Split(Join(tail, sep), sep) == tail
    ensures Split(Join(parts, sep), sep) == parts
  {
    var s := Join(parts, sep);
    JoinDropFirst(parts, tail, sep);
    var rest := Split(s[1..], sep);
    assert Split(s, sep) == [[s[0]] + rest[0]] + rest[1..];
    assert [parts[0][0]] + parts[0][1..] == parts[0];
    assert [parts[0]] + parts[1..] == parts;
  }

  /** Joining after dropping the first character of the first part drops
      the first character of the joined text. */
  lemma JoinDropFirst(parts: seq<string>, tail: seq<string>, sep: char)
    requires |parts| >= 1 && |parts[0]| > 0
    requires tail == [parts[0][1..]] + parts[1..]
    ensures |Join(parts, sep)| > 0 && Join(parts, sep)[0] == parts[0][0]
    ensures Join(parts, sep)[1..] == Join(tail, sep)
  {
    var p0 := parts[0];
    var s := Join(parts, sep);
    assert tail[1..] == parts[1..];
    if |parts| == 1 {
      assert s == p0;
    } else {
      assert s == p0 + [sep] + Join(parts[1..], sep);
      assert Join(tail, sep) == p0[1..] + [sep] + Join(parts[1..], sep);
    }
  }

  lemma SplitJoinEmptyHead(parts: seq<string>, sep: char)
    requires |parts| > 1 && parts[0] == ""
    requires Split(Join(parts[1..], sep), sep) == parts[1..]
    ensures Split(Join(parts, sep), sep) == parts
  {
    var s := Join(parts, sep);
    assert s == [sep] + Join(parts[1..], sep);
    assert s[1..] == Join(parts[1..], sep);
    assert [""] + parts[1..] == parts;
  }

  /** The text after the last `sep`, i.e. `s.split(sep)[-1]`. */
  function LastSegment(s: string, sep: char): (r: string)
    ensures sep !in r
    ensures |r| <= |s| && r == s[|s| - |r|..]
    ensures |r| < |s| ==> s[|s| - |r| - 1] == sep
  {
    if |s| == 0 then ""
    else if s[|s| - 1] == sep then ""
    else LastSegment(s[..|s| - 1], sep) + [s[|s| - 1]]
  }

  // ---------------------------------------------------------------------
  // Optional strings

  /** `bool(x)` for an optional string field. */
  predicate Present(o: Option<string>)
  {
    o.Some? && |o.value| > 0
  }

  /** `x or fallback` for an optional string field. */
  function OrElse(o: Option<string>, fallback: string): (r: string)
    ensures Present(o) ==> r == o.value
    ensures !Present(o) ==> r == fallback
  {
    if Present(o) then o.value else fallback
  }

  /** `str(x)` for an optional string field: `None` prints as "None". */
  function PyStr(o: Option<string>): (r: string)
    ensures o.Some? ==> r == o.value
    ensures o.None? ==> r == "None"
  {
    match o
    case Some(s) => s
    case None => "None"
  }

  // ---------------------------------------------------------------------
  // Decimal integers: str(int) and int(str)

  predicate IsDigit(c: char)
  {
    '0' <= c <= '9'
  }

  predicate AllDigits(s: string)
  {
    forall i :: 0 <= i < |s| ==> IsDigit(s[i])
  }

  function DigitChar(d: nat): (c: char)
    requires d < 10
    ensures IsDigit(c) && (c as int) - ('0' as int) == d
  {
    ('0' as int + d) as char
  }

  /** `str(n)` for a non-negative integer */
  function NatToDecimal(n: nat): (s: string)
    ensures |s| >= 1 && AllDigits(s)
    decreases n
  {
    if n < 10 then [DigitChar(n)] else NatToDecimal(n / 10) + [DigitChar(n % 10)]
  }

  /** `str(i)` */
  function IntToDecimal(i: int): string
  {
    if i < 0 then "-" + NatToDecimal(-i) else NatToDecimal(i)
  }

  /** The value of a string of decimal digits. */
  function DigitsValue(s: string): nat
    requires AllDigits(s)
  {
    if s == [] then 0
    else DigitsValue(s[..|s| - 1]) * 10 + ((s[|s| - 1] as int) - ('0' as int))
  }

  /** Python's `int(s)` for base-10 text: surrounding whitespace, an optional
      sign, then one or more ASCII digits; anything else raises ValueError (None). */
  function ParseInt(s: string): Option<int>
  {
    ParseSigned(Strip(s))
  }

  function ParseSigned(t: string): Option<int>
  {
    if |t| > 0 && t[0] == '-' then
      match ParseUnsigned(t[1..])
      case Some(v) => Some(-v)
      case None => None
    else if |t| > 0 && t[0] == '+' then ParseUnsigned(t[1..])
    else ParseUnsigned(t)
  }

  function ParseUnsigned(d: string): Option<int>
  {
    if |d| > 0 && AllDigits(d) then Some(DigitsValue(d) as int) else None
  }

  lemma {:induction false} DigitsValueOfDecimal(n: nat)
    ensures DigitsValue(NatToDecimal(n)) == n
    decreases n
  {
    if n >= 10 {
      DigitsValueOfDecimal(n / 10);
      var s := NatToDecimal(n);
      assert s[..|s| - 1] == NatToDecimal(n / 10);
    }
  }

  /** `int(str(i)) == i`: parsing the decimal text of any integer gives it back. */
  lemma {:induction false} ParseIntDecimal(i: int)
    ensures ParseInt(IntToDecimal(i)) == Some(i)
  {
    if i < 0 {
      ParseNegativeDecimal(i);
    } else {
      DigitsValueOfDecimal(i);
      ParseDigits(NatToDecimal(i));
    }
  }

  lemma ParseNegativeDecimal(i: int)
    requires i < 0
    ensures ParseInt(IntToDecimal(i)) == Some(i)
  {
    NegativeDecimalTail(i);
    ParseNegative(IntToDecimal(i), -i);
  }

  lemma ParseNegative(s: string, n: nat)
    requires |s| > 1 && s[0] == '-' && s[1..] == NatToDecimal(n)
    ensures ParseInt(s) == Some(-(n as int))
  {
    DigitsValueOfDecimal(n);
    ParseNegativeDigits(s);
  }

  lemma NegativeDecimalTail(i: int)
    requires i < 0
    ensures |IntToDecimal(i)| > 1 && IntToDecimal(i)[0] == '-'
    ensures IntToDecimal(i)[1..] == NatToDecimal(-i)
  {
    var s := IntToDecimal(i);
    assert s == "-" + NatToDecimal(-i);
  }

  lemma ParseDigits(d: string)
    requires |d| > 0 && AllDigits(d)
    ensures ParseInt(d) == Some(DigitsValue(d) as int)
  {
    assert IsDigit(d[0]) && IsDigit(d[|d| - 1]);
    StripNoSpace(d);
    ParseOfStripped(d);
  }

  lemma ParseNegativeDigits(s: string)
    requires |s| > 1 && s[0] == '-' && AllDigits(s[1..])
    ensures ParseInt(s) == Some(-(DigitsValue(s[1..]) as int))
  {
    assert IsDigit(s[1..][|s| - 2]);
    StripNoSpace(s);
    ParseOfStripped(s);
  }

  lemma ParseOfStripped(t: string)
    requires Strip(t) == t
    ensures ParseInt(t) == ParseSigned(t)
  {
  }

  // ---------------------------------------------------------------------
  // Ordering

  /** Lexicographic order of strings by code point, Python's `<=` on `str`. */
  predicate LexLe(a: string, b: string)
  {
    a == [] || (b != [] && (a[0] < b[0] || (a[0] == b[0] && LexLe(a[1..], b[1..]))))
  }

  lemma {:induction false} LexTotal(a: string, b: string)
    ensures LexLe(a, b) || LexLe(b, a)
  {
    if a != [] && b != [] && a[0] == b[0] {
      LexTotal(a[1..], b[1..]);
    }
  }

  lemma {:induction false} LexAntisymmetric(a: string, b: string)
    requires LexLe(a, b) && LexLe(b, a)
    ensures a == b
  {
    if a != [] && b != [] {
      LexAntisymmetric(a[1..], b[1..]);
      assert a == [a[0]] + a[1..] && b == [b[0]] + b[1..];
    }
  }

  lemma {:induction false} LexTransitive(a: string, b: string, c: string)
    requires LexLe(a, b) && LexLe(b, c)
    ensures LexLe(a, c)
  {
    if a != [] && b != [] && c != [] && a[0] == b[0] && b[0] == c[0] {
      LexTransitive(a[1..], b[1..], c[1..]);
    }
  }

  /** `m` comes first in `s`. */
  predicate Least(s: set<string>, m: string)
  {
    m in s && forall x :: x in s ==> LexLe(m, x)
  }

  /** Every non-empty set of strings has a least element. */
  lemma {:induction false} LeastExists(s: set<string>)
    requires s != {}
    ensures exists m :: Least(s, m)
    decreases s
  {
    var y :| y in s;
    if s == {y} {
      assert LexLe(y, y) by { LexTotal(y, y); }
      assert Least(s, y);
    } else {
      LeastExists(s - {y});
      var m :| Least(s - {y}, m);
      LexTotal(m, y);
      if LexLe(m, y) {
        assert Least(s, m);
      } else {
        forall x | x in s ensures LexLe(y, x) {
          if x == y { LexTotal(y, y); } else { LexTransitive(y, m, x); }
        }
        assert Least(s, y);
      }
    }
  }

  /** The least element is unique. */
  lemma LeastUnique(s: set<string>)
    ensures forall m, n :: Least(s, m) && Least(s, n) ==> m == n
  {
    forall m, n | Least(s, m) && Least(s, n) ensures m == n {
      LexAntisymmetric(m, n);
    }
  }

  /** The strings of a set in ascending order, each once. */
  function Sorted(s: set<string>): (r: seq<string>)
    ensures |r| == |s|
    ensures forall x :: x in s <==> x in r
    ensures forall i, j :: 0 <= i < j < |r| ==> r[i] != r[j]
    decreases |s|
  {
    if s == {} then []
    else
      LeastExists(s);
      LeastUnique(s);
      var m :| Least(s, m);
      var rest := Sorted(s - {m});
      [m] + rest
  }
}
