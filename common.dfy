/** Values and helpers shared by every module of the model: an Option type for
    JavaScript's `undefined`/`null` and Python's `None`, list filters and sums,
    the string operations the source uses (lower-casing, substring search,
    trimming, decimal printing) and JavaScript's `Math.round`. */
module Common {

  datatype Option<T> = None | Some(value: T) {
    function GetOr(default: T): T {
      match this
      case Some(v) => v
      case None => default
    }
  }

  // ---------------------------------------------------------------------
  // Lists
  // ---------------------------------------------------------------------

  /** The elements of `s` that satisfy `p`, in order (`Array.prototype.filter`). */
  function Filter<T>(s: seq<T>, p: T -> bool): (r: seq<T>)
    ensures |r| <= |s|
    ensures forall x :: x in r ==> x in s && p(x)
    ensures forall x :: x in s && p(x) ==> x in r
  {
    if s == [] then []
    else (if p(s[0]) then [s[0]] else []) + Filter(s[1..], p)
  }

  lemma AppendTwo<T>(s: seq<T>, a: T, b: T)
    ensures s + [a] + [b] == s + [a, b]
  {
  }

  lemma AppendNil<T>(s: seq<T>)
    ensures s + [] == s
  {
  }

  lemma AppendAssoc<T>(a: seq<T>, b: seq<T>, c: seq<T>)
    ensures a + (b + c) == (a + b) + c
  {
  }

  lemma {:induction false} FilterAppend<T>(a: seq<T>, b: seq<T>, p: T -> bool)
    ensures Filter(a + b, p) == Filter(a, p) + Filter(b, p)
  {
    if a != [] {
      var h := if p(a[0]) then [a[0]] else [];
      var t := a[1..];
      assert Filter(t + b, p) == Filter(t, p) + Filter(b, p) by {
        FilterAppend(t, b, p);
      }
      assert Filter(a + b, p) == h + Filter(t + b, p) by {
        assert (a + b)[0] == a[0];
        assert (a + b)[1..] == t + b;
      }
      assert Filter(a, p) == h + Filter(t, p);
      AppendAssoc(h, Filter(t, p), Filter(b, p));
    } else {
      assert a + b == b;
    }
  }

  /** A one-element list keeps its element exactly when it passes. */
  lemma FilterSingle<T>(x: T, p: T -> bool)
    ensures Filter([x], p) == if p(x) then [x] else []
  {
    assert [x][1..] == [];
  }

  /** Filtering one element more of a prefix adds that element when it passes. */
  lemma FilterPrefixStep<T>(s: seq<T>, k: nat, p: T -> bool)
    requires k < |s|
    ensures Filter(s[..k + 1], p) == Filter(s[..k], p) + (if p(s[k]) then [s[k]] else [])
  {
    assert s[..k + 1] == s[..k] + [s[k]];
    FilterAppend(s[..k], [s[k]], p);
    FilterSingle(s[k], p);
  }

  /** A non-empty sequence is its front followed by its last element. */
  lemma SplitLast<T>(s: seq<T>)
    requires s != []
    ensures s == s[..|s| - 1] + [s[|s| - 1]]
  {
  }

  /** Taking one more element appends it. */
  lemma TakeNext<T>(s: seq<T>, n: nat)
    requires n < |s|
    ensures s[..n + 1] == s[..n] + [s[n]]
  {
  }

  lemma FilterLast<T>(s: seq<T>, p: T -> bool)
    requires s != []
    ensures Filter(s, p) == Filter(s[..|s| - 1], p) + (if p(s[|s| - 1]) then [s[|s| - 1]] else [])
  {
    FilterPrefixStep(s, |s| - 1, p);
    assert s[..|s|] == s;
  }

  /** Filtering keeps everything exactly when every element passes. */
  lemma {:induction false} FilterAll<T>(s: seq<T>, p: T -> bool)
    requires forall i :: 0 <= i < |s| ==> p(s[i])
    ensures Filter(s, p) == s
  {
    if s != [] {
      FilterAll(s[1..], p);
    }
  }

  /** Number of elements satisfying `p`. */
  function Count<T>(s: seq<T>, p: T -> bool): (n: nat)
    ensures n <= |s|
  {
    |Filter(s, p)|
  }

  /** The count of a non-empty list: its head, then the rest. */
  lemma CountStep<T>(s: seq<T>, p: T -> bool)
    requires s != []
    ensures Count(s, p) == (if p(s[0]) then 1 else 0) + Count(s[1..], p)
  {
  }

  /** Sum of `f` over the list (`reduce((sum, x) => sum + f(x), 0)`). */
  function SumBy<T>(s: seq<T>, f: T -> int): int
  {
    if s == [] then 0 else f(s[0]) + SumBy(s[1..], f)
  }

  lemma {:induction false} SumByAppend<T>(a: seq<T>, b: seq<T>, f: T -> int)
    ensures SumBy(a + b, f) == SumBy(a, f) + SumBy(b, f)
  {
    if a != [] {
      assert (a + b)[0] == a[0];
      assert (a + b)[1..] == a[1..] + b;
      SumByAppend(a[1..], b, f);
      assert SumBy(a + b, f) == f(a[0]) + SumBy(a[1..] + b, f);
    } else {
      assert a + b == b;
    }
  }

  lemma {:induction false} SumByNonNegative<T>(s: seq<T>, f: T -> int)
    requires forall i :: 0 <= i < |s| ==> f(s[i]) >= 0
    ensures SumBy(s, f) >= 0
  {
    if s != [] {
      SumByNonNegative(s[1..], f);
    }
  }

  /** Real-valued sum, for the source's floating-point reductions. */
  function RealSumBy<T>(s: seq<T>, f: T -> real): real
  {
    if s == [] then 0.0 else f(s[0]) + RealSumBy(s[1..], f)
  }

  /** The first element satisfying `p`, if any (`Array.prototype.find`). */
  function Find<T>(s: seq<T>, p: T -> bool): (r: Option<T>)
    ensures r.Some? ==> r.value in s && p(r.value)
    ensures r.None? ==> forall i :: 0 <= i < |s| ==> !p(s[i])
    ensures r.Some? <==> FindIndex(s, p) >= 0
    ensures r.Some? ==> r.value == s[FindIndex(s, p)]
  {
    if s == [] then None
    else if p(s[0]) then Some(s[0])
    else Find(s[1..], p)
  }

  /** Index of the first element satisfying `p`, or -1 (`findIndex`). */
  function FindIndex<T>(s: seq<T>, p: T -> bool): (k: int)
    ensures -1 <= k < |s|
    ensures k >= 0 ==> p(s[k]) && forall i :: 0 <= i < k ==> !p(s[i])
    ensures k == -1 ==> forall i :: 0 <= i < |s| ==> !p(s[i])
  {
    if s == [] then -1
    else if p(s[0]) then 0
    else
      var k := FindIndex(s[1..], p);
      if k == -1 then -1 else k + 1
  }

  /** `s.slice(0, n)` for a non-negative `n`. */
  function Take<T>(s: seq<T>, n: nat): (r: seq<T>)
    ensures |r| == if n < |s| then n else |s|
    ensures r == s[..|r|]
  {
    if n < |s| then s[..n] else s
  }

  /** `s.slice(-n)` for a positive `n`: the last `n` elements, or all of them. */
  function TakeLast<T>(s: seq<T>, n: nat): (r: seq<T>)
    ensures |r| == if n < |s| then n else |s|
    ensures r == s[|s| - |r|..]
  {
    if n < |s| then s[|s| - n..] else s
  }

  function Max(a: int, b: int): int { if a < b then b else a }
  function Min(a: int, b: int): int { if a < b then a else b }
  function RealMax(a: real, b: real): real { if a < b then b else a }
  function RealMin(a: real, b: real): real { if a < b then a else b }

  /** `Math.max(...s)` for a non-empty list of reals. */
  function MaxOf(s: seq<real>): (m: real)
    requires |s| > 0
    ensures m in s
    ensures forall i :: 0 <= i < |s| ==> s[i] <= m
  {
    if |s| == 1 then s[0] else RealMax(s[0], MaxOf(s[1..]))
  }

  /** `Math.min(...s)` for a non-empty list of reals. */
  function MinOf(s: seq<real>): (m: real)
    requires |s| > 0
    ensures m in s
    ensures forall i :: 0 <= i < |s| ==> m <= s[i]
  {
    if |s| == 1 then s[0] else RealMin(s[0], MinOf(s[1..]))
  }

  // ---------------------------------------------------------------------
  // Numbers
  // ---------------------------------------------------------------------

  /** JavaScript's `Math.round`: the nearest integer, halves rounded up. */
  function JsRound(x: real): int
  {
    (x + 0.5).Floor
  }

  /** `Math.round((c / q) * 100)` for naturals, computed exactly. */
  function RoundPercent(c: nat, q: nat): (r: nat)
    requires q > 0
  {
    (200 * c + q) / (2 * q)
  }

  /** The integer formula agrees with rounding the exact ratio. */
  lemma RoundPercentIsJsRound(c: nat, q: nat)
    requires q > 0
    ensures RoundPercent(c, q) == JsRound(100.0 * (c as real) / (q as real))
  {
    var r := RoundPercent(c, q);
    var n := 200 * c + q;
    var d := 2 * q;
    assert d * r <= n < d * (r + 1);
    var x := 100.0 * (c as real) / (q as real) + 0.5;
    HalfShift(c as real, q as real);
    assert (d as real) * x == n as real;
    assert (d as real) * (r as real) <= n as real;
    assert (n as real) < (d as real) * ((r + 1) as real);
    QuotientBracket(n as real, d as real, x, r as real);
  }

  /** `100c/q + 1/2` is `(200c + q) / 2q`, stated without division. */
  lemma HalfShift(c: real, q: real)
    requires q > 0.0
    ensures 2.0 * q * (100.0 * c / q + 0.5) == 200.0 * c + q
  {
    var y := 100.0 * c / q;
    assert y * q == 100.0 * c;
    calc {
      2.0 * q * (y + 0.5);
      2.0 * (y * q) + q;
    }
  }

  /** A quotient `x = n / d` with `d * r <= n < d * (r + 1)` lies in `[r, r + 1)`. */
  lemma QuotientBracket(n: real, d: real, x: real, r: real)
    requires d > 0.0 && d * x == n
    requires d * r <= n < d * (r + 1.0)
    ensures r <= x < r + 1.0
  {
    var below, above := x - r, r + 1.0 - x;
    assert d * below == d * x - d * r;
    assert d * above == d * (r + 1.0) - d * x;
    CancelPositive(d, below);
    CancelPositive(d, above);
  }

  /** Dividing out a positive factor keeps the sign of a product. */
  lemma CancelPositive(d: real, y: real)
    requires d > 0.0
    ensures d * y >= 0.0 ==> y >= 0.0
    ensures d * y > 0.0 ==> y > 0.0
  {
    var inv := 1.0 / d;
    assert d * inv == 1.0;
    assert y == (d * y) * inv;
    SignOfProduct(d * y, inv);
  }

  lemma SignOfProduct(a: real, b: real)
    requires b > 0.0
    ensures a >= 0.0 ==> a * b >= 0.0
    ensures a > 0.0 ==> a * b > 0.0
  {
  }

  /** Integer division against a bound: `n / d >= k` exactly when `n >= k * d`. */
  lemma DivAtLeast(n: nat, d: nat, k: nat)
    requires d > 0
    ensures n / d >= k <==> n >= k * d
  {
    var q := n / d;
    assert n == d * q + n % d;
    if q >= k {
      assert d * q >= d * k;
    } else {
      assert q + 1 <= k;
      assert d * (q + 1) <= d * k;
    }
  }

  /** The rounded percentage of a part never exceeds 100. */
  lemma RoundPercentAtMost100(c: nat, q: nat)
    requires 0 < q && c <= q
    ensures RoundPercent(c, q) <= 100
  {
    DivAtLeast(200 * c + q, 2 * q, 101);
  }

  /** The rounded percentage is 100 exactly when at least 199/200 of the questions are right. */
  lemma RoundPercentIs100(c: nat, q: nat)
    requires 0 < q && c <= q
    ensures RoundPercent(c, q) == 100 <==> 200 * c >= 199 * q
  {
    DivAtLeast(200 * c + q, 2 * q, 101);
    DivAtLeast(200 * c + q, 2 * q, 100);
  }

  // ---------------------------------------------------------------------
  // Strings
  // ---------------------------------------------------------------------

  /** ASCII lower-casing of one character. */
  function LowerChar(c: char): char
  {
    if 'A' <= c <= 'Z' then (c as int + 32) as char else c
  }

  /** `toLowerCase()` / Python's `lower()`, on ASCII letters. */
  function ToLower(s: string): (r: string)
    ensures |r| == |s|
    ensures forall i :: 0 <= i < |s| ==> r[i] == LowerChar(s[i])
  {
    seq(|s|, i requires 0 <= i < |s| => LowerChar(s[i]))
  }

  lemma ToLowerIdempotent(s: string)
    ensures ToLower(ToLower(s)) == ToLower(s)
  {
  }

  predicate IsPrefix(p: string, s: string)
  {
    |p| <= |s| && s[..|p|] == p
  }

  /** `s.includes(sub)` / Python's `sub in s`. */
  predicate Contains(s: string, sub: string)
    decreases |s|
  {
    IsPrefix(sub, s) || (|s| > 0 && Contains(s[1..], sub))
  }

  /** `sub` occurs in `s` starting at position `i`. */
  predicate OccursAt(s: string, sub: string, i: int)
  {
    0 <= i <= |s| - |sub| && s[i..i + |sub|] == sub
  }

  /** `Contains` finds exactly the occurrences at some position. */
  lemma {:induction false} ContainsIff(s: string, sub: string)
    ensures Contains(s, sub) <==> exists i :: OccursAt(s, sub, i)
    decreases |s|
  {
    if IsPrefix(sub, s) {
      assert OccursAt(s, sub, 0);
    } else if |s| > 0 {
      ContainsIff(s[1..], sub);
      if Contains(s[1..], sub) {
        var i :| OccursAt(s[1..], sub, i);
        assert OccursAt(s, sub, i + 1);
      } else {
        forall i | OccursAt(s, sub, i)
          ensures false
        {
          assert i > 0;
          assert OccursAt(s[1..], sub, i - 1);
        }
      }
    }
  }

  /** A text built around a word contains that word. */
  lemma ContainsInfix(a: string, w: string, b: string)
    ensures Contains(a + w + b, w)
  {
    var s := a + w + b;
    assert OccursAt(s, w, |a|);
    ContainsIff(s, w);
  }

  /** JavaScript whitespace, as `trim()` and the regex class `\s` see it. */
  predicate IsJsSpace(c: char)
  {
    c in {'\U{0009}', '\U{000A}', '\U{000B}', '\U{000C}', '\U{000D}', '\U{0020}',
          '\U{00A0}', '\U{1680}', '\U{2000}', '\U{2001}', '\U{2002}', '\U{2003}',
          '\U{2004}', '\U{2005}', '\U{2006}', '\U{2007}', '\U{2008}', '\U{2009}',
          '\U{200A}', '\U{2028}', '\U{2029}', '\U{202F}', '\U{205F}', '\U{3000}',
          '\U{FEFF}'}
  }

  /** Python whitespace, as `str.strip()` sees it. */
  predicate IsPySpace(c: char)
  {
    c in {'\U{0009}', '\U{000A}', '\U{000B}', '\U{000C}', '\U{000D}', '\U{001C}',
          '\U{001D}', '\U{001E}', '\U{001F}', '\U{0020}', '\U{0085}', '\U{00A0}',
          '\U{1680}', '\U{2000}', '\U{2001}', '\U{2002}', '\U{2003}', '\U{2004}',
          '\U{2005}', '\U{2006}', '\U{2007}', '\U{2008}', '\U{2009}', '\U{200A}',
          '\U{2028}', '\U{2029}', '\U{202F}', '\U{205F}', '\U{3000}'}
  }

  predicate AllSpace(s: string, isSpace: char -> bool)
  {
    forall i :: 0 <= i < |s| ==> isSpace(s[i])
  }

  /** `s` without its leading run of spaces. */
  function DropLeading(s: string, isSpace: char -> bool): (r: string)
    ensures |r| <= |s| && r == s[|s| - |r|..]
    ensures r == [] || !isSpace(r[0])
    ensures AllSpace(s[..|s| - |r|], isSpace)
  {
    if s == [] || !isSpace(s[0]) then s
    else
      var r := DropLeading(s[1..], isSpace);
      SpaceThenSuffix(s, r, isSpace);
      r
  }

  /** A space followed by a tail whose cut-off front is all spaces: the
      front cut off the whole list is all spaces too. */
  lemma SpaceThenSuffix(s: string, r: string, isSpace: char -> bool)
    requires s != [] && isSpace(s[0])
    requires |r| <= |s[1..]| && r == s[1..][|s[1..]| - |r|..]
    requires AllSpace(s[1..][..|s[1..]| - |r|], isSpace)
    ensures |r| <= |s| && r == s[|s| - |r|..]
    ensures AllSpace(s[..|s| - |r|], isSpace)
  {
    var t := s[1..];
    var cut := |t| - |r|;
    assert t[cut..] == s[cut + 1..];
    assert s[..cut + 1] == [s[0]] + t[..cut];
  }

  /** `s` without its trailing run of spaces. */
  function DropTrailing(s: string, isSpace: char -> bool): (r: string)
    ensures |r| <= |s| && r == s[..|r|]
    ensures r == [] || !isSpace(r[|r| - 1])
    ensures AllSpace(s[|r|..], isSpace)
  {
    if s == [] || !isSpace(s[|s| - 1]) then s
    else
      var r := DropTrailing(s[..|s| - 1], isSpace);
      assert s[|r|..] == s[..|s| - 1][|r|..] + [s[|s| - 1]];
      r
  }

  /** `s.length` in JavaScript: the number of UTF-16 code units, two for a
      character outside the Basic Multilingual Plane. */
  function Utf16Length(s: string): (n: nat)
    ensures |s| <= n <= 2 * |s|
  {
    if s == [] then 0
    else (if s[0] as int < 0x1_0000 then 1 else 2) + Utf16Length(s[1..])
  }

  /** A text of Basic Multilingual Plane characters has one code unit per
      character. */
  lemma {:induction false} Utf16LengthOfBasic(s: string)
    requires forall i :: 0 <= i < |s| ==> s[i] as int < 0x1_0000
    ensures Utf16Length(s) == |s|
  {
    if s != [] {
      assert forall i :: 0 <= i < |s[1..]| ==> s[1..][i] == s[i + 1];
      Utf16LengthOfBasic(s[1..]);
    }
  }

  /** Strip both ends: JavaScript `trim()` with `IsJsSpace`, Python `strip()` with `IsPySpace`. */
  function TrimWith(s: string, isSpace: char -> bool): (r: string)
  {
    DropTrailing(DropLeading(s, isSpace), isSpace)
  }

  /** A trimmed string is a slice of the input, with no space at either end,
      and only spaces were cut off. */
  lemma TrimShape(s: string, isSpace: char -> bool)
    ensures SpacedSliceOf(s, TrimWith(s, isSpace), isSpace)
    ensures var r := TrimWith(s, isSpace);
            r == [] || (!isSpace(r[0]) && !isSpace(r[|r| - 1]))
  {
    var l := DropLeading(s, isSpace);
    var r := DropTrailing(l, isSpace);
    assert r == TrimWith(s, isSpace);
    TrimmedEnds(s, l, r, isSpace);
  }

  /** `r` is a slice of `s` with only spaces before and after it. */
  predicate SpacedSliceOf(s: string, r: string, isSpace: char -> bool)
  {
    exists i :: 0 <= i <= |s| - |r| && r == s[i..i + |r|]
              && AllSpace(s[..i], isSpace) && AllSpace(s[i + |r|..], isSpace)
  }

  /** The two stripping steps' guarantees, put together. */
  lemma TrimmedEnds(s: string, l: string, r: string, isSpace: char -> bool)
    requires |l| <= |s| && l == s[|s| - |l|..] && (l == [] || !isSpace(l[0])) && AllSpace(s[..|s| - |l|], isSpace)
    requires |r| <= |l| && r == l[..|r|] && (r == [] || !isSpace(r[|r| - 1])) && AllSpace(l[|r|..], isSpace)
    ensures SpacedSliceOf(s, r, isSpace)
    ensures r == [] || (!isSpace(r[0]) && !isSpace(r[|r| - 1]))
  {
    var i := |s| - |l|;
    PrefixOfSuffix(s, i, l, r);
    SpacedSlice(s, i, r, isSpace);
    if r != [] {
      assert r[0] == l[0];
    }
  }

  /** A prefix `r` of the suffix `l` of `s` from `i` is the slice of `s` at
      `i`, and what follows it in `l` is what follows it in `s`. */
  lemma PrefixOfSuffix(s: string, i: nat, l: string, r: string)
    requires i <= |s| && l == s[i..] && |r| <= |l| && r == l[..|r|]
    ensures i + |r| <= |s| && r == s[i..i + |r|] && s[i + |r|..] == l[|r|..]
  {
  }

  /** A slice with only spaces around it witnesses the trimmed shape. */
  lemma SpacedSlice(s: string, i: nat, r: string, isSpace: char -> bool)
    requires i + |r| <= |s| && r == s[i..i + |r|]
    requires AllSpace(s[..i], isSpace) && AllSpace(s[i + |r|..], isSpace)
    ensures SpacedSliceOf(s, r, isSpace)
  {
  }

  /** Trimming leaves nothing exactly when the text is all spaces. */
  lemma TrimEmptyIff(s: string, isSpace: char -> bool)
    ensures TrimWith(s, isSpace) == [] <==> AllSpace(s, isSpace)
  {
    var l := DropLeading(s, isSpace);
    if TrimWith(s, isSpace) == [] {
      assert l[0..] == l;
      assert s[..|s| - |l|] == s;
    }
  }

  predicate IsNotJsSpace(c: char) { !IsJsSpace(c) }

  /** `s.replace(/\s+/g, '')`: every JavaScript whitespace character removed,
      the others kept in order. */
  function RemoveSpaces(s: string): (r: string)
    ensures |r| <= |s|
    ensures forall i :: 0 <= i < |r| ==> !IsJsSpace(r[i])
    ensures r == Filter(s, IsNotJsSpace)
  {
    if s == [] then []
    else (if IsJsSpace(s[0]) then [] else [s[0]]) + RemoveSpaces(s[1..])
  }

  // ---------------------------------------------------------------------
  // Decimal numerals
  // ---------------------------------------------------------------------

  function DigitChar(d: nat): char
    requires d < 10
  {
    ('0' as int + d) as char
  }

  predicate IsDigit(c: char) { '0' <= c <= '9' }

  function DigitValue(c: char): nat
    requires IsDigit(c)
  {
    c as int - '0' as int
  }

  /** `String(n)` / `n.toString()` for a natural number. */
  function NatToString(n: nat): (s: string)
    ensures |s| > 0
    ensures forall i :: 0 <= i < |s| ==> IsDigit(s[i])
  {
    if n < 10 then [DigitChar(n)] else NatToString(n / 10) + [DigitChar(n % 10)]
  }

  /** Value of a digit string. */
  function ParseDigits(s: string): nat
    requires forall i :: 0 <= i < |s| ==> IsDigit(s[i])
  {
    if s == [] then 0 else 10 * ParseDigits(s[..|s| - 1]) + DigitValue(s[|s| - 1])
  }

  /** Printing and parsing back is the identity. */
  lemma {:induction false} ParseNatToString(n: nat)
    ensures ParseDigits(NatToString(n)) == n
  {
    if n >= 10 {
      var s := NatToString(n);
      assert s[..|s| - 1] == NatToString(n / 10);
      ParseNatToString(n / 10);
    }
  }

  /** Leading zeros do not change the value of a digit string. */
  lemma {:induction false} ParseLeadingZero(s: string)
    requires forall i :: 0 <= i < |s| ==> IsDigit(s[i])
    ensures ParseDigits("0" + s) == ParseDigits(s)
    decreases |s|
  {
    if s != [] {
      var t := "0" + s;
      assert t[..|t| - 1] == "0" + s[..|s| - 1];
      ParseLeadingZero(s[..|s| - 1]);
    }
  }

  /** `String(n).padStart(2, '0')`. */
  function PadTwo(s: string): (r: string)
    ensures |s| >= 2 ==> r == s
    ensures |s| < 2 ==> |r| == 2
  {
    if |s| >= 2 then s else if |s| == 1 then "0" + s else "00"
  }

  /** `${Math.floor(s / 60)}:${(s % 60).toString().padStart(2, '0')}` — the clock
      format of the quiz page and of the learning-progress panel. */
  function FormatClock(seconds: nat): (r: string)
  {
    NatToString(seconds / 60) + ":" + PadTwo(NatToString(seconds % 60))
  }

  /** The clock text is minutes, a colon and exactly two digits of seconds, and
      reading both numbers back gives the original count of seconds. */
  lemma FormatClockRoundTrip(seconds: nat)
    ensures var r := FormatClock(seconds);
            var m := NatToString(seconds / 60);
            |r| == |m| + 3 && r[..|m|] == m && r[|m|] == ':'
            && (forall i :: |m| < i < |r| ==> IsDigit(r[i]))
            && 60 * ParseDigits(m) + ParseDigits(r[|m| + 1..]) == seconds
  {
    var m := NatToString(seconds / 60);
    var sec := NatToString(seconds % 60);
    ParseNatToString(seconds / 60);
    ParseNatToString(seconds % 60);
    if seconds % 60 >= 10 {
      assert |sec| >= 2 by {
        assert sec == NatToString((seconds % 60) / 10) + [DigitChar((seconds % 60) % 10)];
      }
      assert PadTwo(sec) == sec;
    } else {
      assert |sec| == 1;
      assert PadTwo(sec) == "0" + sec;
      ParseLeadingZero(sec);
    }
    var r := FormatClock(seconds);
    assert r[|m| + 1..] == PadTwo(sec);
  }
}
