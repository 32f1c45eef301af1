/** The one sorting algorithm the model needs: JavaScript's `Array.prototype.sort`
    with a numeric comparator `(a, b) => key(a) - key(b)`, which the language
    requires to be stable.  A descending sort `(a, b) => key(b) - key(a)` is the
    same sort on the negated key. */
module Sorting {
  import opened Common

  /** Keys never decrease along the list. */
  predicate SortedBy<T>(s: seq<T>, key: T -> real)
  {
    forall i, j :: 0 <= i < j < |s| ==> key(s[i]) <= key(s[j])
  }

  /** Insert `x` before the first element whose key is not smaller. */
  function Insert<T>(x: T, s: seq<T>, key: T -> real): (r: seq<T>)
    requires SortedBy(s, key)
    ensures SortedBy(r, key)
    ensures |r| == |s| + 1
    ensures multiset(r) == multiset(s) + multiset{x}
  {
    if s == [] || key(x) <= key(s[0]) then
      InsertAtHead(x, s, key);
      [x] + s
    else
      SortedTail(s, key);
      var t := Insert(x, s[1..], key);
      InsertBehindHead(x, s, t, key);
      [s[0]] + t
  }

  lemma InsertAtHead<T>(x: T, s: seq<T>, key: T -> real)
    requires SortedBy(s, key) && (s == [] || key(x) <= key(s[0]))
    ensures SortedBy([x] + s, key)
  {
    if s != [] {
      HeadLeast(s, key);
      assert s == [s[0]] + s[1..];
    }
    ConsSorted(x, s, key);
  }

  lemma SortedTail<T>(s: seq<T>, key: T -> real)
    requires SortedBy(s, key) && s != []
    ensures SortedBy(s[1..], key)
  {
  }

  /** Putting the head back in front of the tail with `x` inserted keeps the
      list sorted, and it then holds the elements of `s` and `x`. */
  lemma InsertBehindHead<T>(x: T, s: seq<T>, t: seq<T>, key: T -> real)
    requires SortedBy(s, key) && s != [] && key(s[0]) < key(x)
    requires SortedBy(t, key) && multiset(t) == multiset(s[1..]) + multiset{x}
    ensures SortedBy([s[0]] + t, key)
    ensures multiset([s[0]] + t) == multiset(s) + multiset{x}
  {
    assert s == [s[0]] + s[1..];
    HeadLeast(s, key);
    InsertedMembers(t, s[1..], x);
    ConsSorted(s[0], t, key);
  }

  /** A list holding the elements of `s` and `x` holds nothing else. */
  lemma InsertedMembers<T>(t: seq<T>, s: seq<T>, x: T)
    requires multiset(t) == multiset(s) + multiset{x}
    ensures forall y :: y in t ==> y == x || y in s
  {
    forall y | y in t ensures y == x || y in s {
      assert y in multiset(t);
    }
  }

  /** The head of a sorted list has the least key. */
  lemma HeadLeast<T>(s: seq<T>, key: T -> real)
    requires SortedBy(s, key) && s != []
    ensures forall y :: y in s[1..] ==> key(s[0]) <= key(y)
  {
    forall y | y in s[1..] ensures key(s[0]) <= key(y) {
      var k :| 0 <= k < |s[1..]| && s[1..][k] == y;
      assert s[k + 1] == y;
    }
  }

  /** A head no larger than anything in a sorted tail keeps the list sorted. */
  lemma ConsSorted<T>(h: T, t: seq<T>, key: T -> real)
    requires SortedBy(t, key)
    requires forall y :: y in t ==> key(h) <= key(y)
    ensures SortedBy([h] + t, key)
  {
    var r := [h] + t;
    forall i, j | 0 <= i < j < |r| ensures key(r[i]) <= key(r[j]) {
      assert r[j] == t[j - 1];
      if i > 0 {
        assert r[i] == t[i - 1];
      } else {
        assert r[j] in t;
      }
    }
  }

  /** Stable ascending sort by `key`. */
  function SortBy<T>(s: seq<T>, key: T -> real): (r: seq<T>)
    ensures SortedBy(r, key)
    ensures |r| == |s|
    ensures multiset(r) == multiset(s)
  {
    if s == [] then []
    else
      assert s == [s[0]] + s[1..];
      Insert(s[0], SortBy(s[1..], key), key)
  }

  /** Sorting keeps exactly the elements of the list. */
  lemma SortByMembers<T>(s: seq<T>, key: T -> real)
    ensures forall x :: x in SortBy(s, key) <==> x in s
  {
    var r := SortBy(s, key);
    forall x ensures x in r <==> x in s {
      assert x in r <==> x in multiset(r);
      assert x in s <==> x in multiset(s);
    }
  }

  /** The elements whose key is `v`, in order. */
  function WithKey<T>(s: seq<T>, key: T -> real, v: real): seq<T>
  {
    Filter(s, KeyIs(key, v))
  }

  function KeyIs<T>(key: T -> real, v: real): T -> bool
  {
    x => key(x) == v
  }

  lemma {:induction false} InsertStable<T>(x: T, s: seq<T>, key: T -> real, v: real)
    requires SortedBy(s, key)
    ensures WithKey(Insert(x, s, key), key, v)
            == (if key(x) == v then [x] else []) + WithKey(s, key, v)
  {
    var p := KeyIs(key, v);
    var hx := if key(x) == v then [x] else [];
    FilterSingle(x, p);
    if s == [] || key(x) <= key(s[0]) {
      FilterAppend([x], s, p);
    } else {
      var rest := s[1..];
      var t := Insert(x, rest, key);
      var hs := if key(s[0]) == v then [s[0]] else [];
      var f := Filter(rest, p);
      assert Filter(t, p) == hx + f by {
        assert SortedBy(rest, key);
        InsertStable(x, rest, key, v);
      }
      assert Filter(Insert(x, s, key), p) == hs + Filter(t, p) by {
        assert Insert(x, s, key) == [s[0]] + t;
        FilterSingle(s[0], p);
        FilterAppend([s[0]], t, p);
      }
      assert Filter(s, p) == hs + f;
      SwapEmpty(hs, hx, f);
    }
  }

  /** Two lists of which one is empty can be put in front in either order. */
  lemma SwapEmpty<T>(a: seq<T>, b: seq<T>, c: seq<T>)
    requires a == [] || b == []
    ensures a + (b + c) == b + (a + c)
  {
    if a == [] {
      assert a + (b + c) == b + c;
      assert a + c == c;
    } else {
      assert b + c == c;
      assert b + (a + c) == a + c;
    }
  }

  /** Stability: elements with equal keys keep their relative order. */
  lemma {:induction false} SortByStable<T>(s: seq<T>, key: T -> real, v: real)
    ensures WithKey(SortBy(s, key), key, v) == WithKey(s, key, v)
  {
    if s != [] {
      SortByStable(s[1..], key, v);
      InsertStable(s[0], SortBy(s[1..], key), key, v);
    }
  }

  /** Sorting an already sorted list changes nothing, so sorting is idempotent. */
  lemma {:induction false} SortBySorted<T>(s: seq<T>, key: T -> real)
    requires SortedBy(s, key)
    ensures SortBy(s, key) == s
  {
    if s != [] {
      SortBySorted(s[1..], key);
    }
  }

  lemma SortByIdempotent<T>(s: seq<T>, key: T -> real)
    ensures SortBy(SortBy(s, key), key) == SortBy(s, key)
  {
    SortBySorted(SortBy(s, key), key);
  }

  /** The first element of a non-empty sorted list has the least key. */
  lemma SortedHeadIsLeast<T>(s: seq<T>, key: T -> real)
    requires |s| > 0
    ensures forall x :: x in s ==> key(SortBy(s, key)[0]) <= key(x)
  {
    var r := SortBy(s, key);
    forall x | x in s ensures key(r[0]) <= key(x) {
      assert x in multiset(r);
      var k :| 0 <= k < |r| && r[k] == x;
      if k > 0 {
        assert key(r[0]) <= key(r[k]);
      }
    }
  }

  /** The first `n` of the sorted list come from the list, and an element
      left out of them has a key no smaller than any of theirs. */
  lemma TakeSortedBy<T>(s: seq<T>, key: T -> real, n: nat)
    ensures var shown := Take(SortBy(s, key), n);
            && (forall x :: x in shown ==> x in s)
            && (forall x :: x in s && x !in shown ==>
                  |shown| == n && forall i :: 0 <= i < |shown| ==> key(shown[i]) <= key(x))
  {
    var sorted := SortBy(s, key);
    var shown := Take(sorted, n);
    SortByMembers(s, key);
    forall x | x in s && x !in shown
      ensures |shown| == n && forall i :: 0 <= i < |shown| ==> key(shown[i]) <= key(x)
    {
      var k :| 0 <= k < |sorted| && sorted[k] == x;
      assert k >= |shown|;
      forall i | 0 <= i < |shown| ensures key(shown[i]) <= key(x) {
        assert shown[i] == sorted[i];
      }
    }
  }

  /** Elements with equal keys appear in increasing `rank`. */
  predicate TiesRanked<T>(s: seq<T>, key: T -> real, rank: T -> int)
  {
    forall i, j :: 0 <= i < j < |s| && key(s[i]) == key(s[j]) ==> rank(s[i]) < rank(s[j])
  }

  lemma {:induction false} InsertKeepsTies<T>(x: T, s: seq<T>, key: T -> real, rank: T -> int)
    requires SortedBy(s, key) && TiesRanked(s, key, rank)
    requires forall y :: y in s ==> rank(x) < rank(y)
    ensures TiesRanked(Insert(x, s, key), key, rank)
  {
    if s == [] || key(x) <= key(s[0]) {
    } else {
      assert TiesRanked(s[1..], key, rank) by {
        forall i, j | 0 <= i < j < |s[1..]| && key(s[1..][i]) == key(s[1..][j])
          ensures rank(s[1..][i]) < rank(s[1..][j])
        {
          assert s[1..][i] == s[i + 1] && s[1..][j] == s[j + 1];
        }
      }
      assert forall y :: y in s[1..] ==> rank(x) < rank(y);
      InsertKeepsTies(x, s[1..], key, rank);
      var t := Insert(x, s[1..], key);
      HeadTies(s, key, rank);
      InsertedMembers(t, s[1..], x);
      ConsTies(s[0], t, key, rank);
      assert Insert(x, s, key) == [s[0]] + t;
    }
  }

  /** The head of a list whose ties are ranked is ranked before every later
      element of the same key. */
  lemma HeadTies<T>(s: seq<T>, key: T -> real, rank: T -> int)
    requires TiesRanked(s, key, rank) && s != []
    ensures forall y :: y in s[1..] && key(s[0]) == key(y) ==> rank(s[0]) < rank(y)
  {
    forall y | y in s[1..] && key(s[0]) == key(y) ensures rank(s[0]) < rank(y) {
      var k :| 0 <= k < |s[1..]| && s[1..][k] == y;
      assert s[k + 1] == y;
    }
  }

  /** A head ranked before every tied element of a tail with ranked ties
      keeps the ties ranked. */
  lemma ConsTies<T>(h: T, t: seq<T>, key: T -> real, rank: T -> int)
    requires TiesRanked(t, key, rank)
    requires forall y :: y in t && key(h) == key(y) ==> rank(h) < rank(y)
    ensures TiesRanked([h] + t, key, rank)
  {
    var r := [h] + t;
    forall i, j | 0 <= i < j < |r| && key(r[i]) == key(r[j]) ensures rank(r[i]) < rank(r[j]) {
      assert r[j] == t[j - 1];
      if i > 0 {
        assert r[i] == t[i - 1];
      } else {
        assert r[j] in t;
      }
    }
  }

  /** Stability stated by position: when the input is in increasing `rank`,
      elements of equal key stay in increasing `rank` after sorting. */
  lemma {:induction false} SortByKeepsTies<T>(s: seq<T>, key: T -> real, rank: T -> int)
    requires forall i, j :: 0 <= i < j < |s| ==> rank(s[i]) < rank(s[j])
    ensures TiesRanked(SortBy(s, key), key, rank)
  {
    if s != [] {
      SortByKeepsTies(s[1..], key, rank);
      var rest := SortBy(s[1..], key);
      forall y | y in rest ensures rank(s[0]) < rank(y) {
        assert y in multiset(s[1..]);
        var k :| 0 <= k < |s[1..]| && s[1..][k] == y;
        assert s[k + 1] == y;
      }
      InsertKeepsTies(s[0], rest, key, rank);
    }
  }

  lemma {:induction false} InsertSum<T>(x: T, s: seq<T>, key: T -> real, f: T -> int)
    requires SortedBy(s, key)
    ensures SumBy(Insert(x, s, key), f) == f(x) + SumBy(s, f)
  {
    if s == [] || key(x) <= key(s[0]) {
      assert ([x] + s)[1..] == s;
    } else {
      InsertSum(x, s[1..], key, f);
      var t := Insert(x, s[1..], key);
      assert ([s[0]] + t)[1..] == t;
    }
  }

  /** Sorting keeps the sum of any measure of the elements. */
  lemma {:induction false} SortBySum<T>(s: seq<T>, key: T -> real, f: T -> int)
    ensures SumBy(SortBy(s, key), f) == SumBy(s, f)
  {
    if s != [] {
      SortBySum(s[1..], key, f);
      InsertSum(s[0], SortBy(s[1..], key), key, f);
    }
  }

  /** No two elements share a key. */
  predicate KeysDistinct<T>(s: seq<T>, key: T -> real)
  {
    forall i, j :: 0 <= i < j < |s| ==> key(s[i]) != key(s[j])
  }

  lemma {:induction false} InsertKeepsDistinct<T>(x: T, s: seq<T>, key: T -> real)
    requires SortedBy(s, key) && KeysDistinct(s, key)
    requires forall y :: y in s ==> key(y) != key(x)
    ensures KeysDistinct(Insert(x, s, key), key)
  {
    if s == [] || key(x) <= key(s[0]) {
      ConsDistinct(x, s, key);
    } else {
      SortedTail(s, key);
      assert forall y :: y in s[1..] ==> y in s;
      InsertKeepsDistinct(x, s[1..], key);
      var t := Insert(x, s[1..], key);
      InsertedMembers(t, s[1..], x);
      HeadDistinct(s, key);
      ConsDistinct(s[0], t, key);
    }
  }

  /** The head of a list with distinct keys shares its key with nothing after it. */
  lemma HeadDistinct<T>(s: seq<T>, key: T -> real)
    requires KeysDistinct(s, key) && s != []
    ensures forall y :: y in s[1..] ==> key(s[0]) != key(y)
  {
    forall y | y in s[1..] ensures key(s[0]) != key(y) {
      var k :| 0 <= k < |s[1..]| && s[1..][k] == y;
      assert s[k + 1] == y;
    }
  }

  /** A head whose key nothing in a tail with distinct keys shares keeps the
      keys distinct. */
  lemma ConsDistinct<T>(h: T, t: seq<T>, key: T -> real)
    requires KeysDistinct(t, key)
    requires forall y :: y in t ==> key(h) != key(y)
    ensures KeysDistinct([h] + t, key)
  {
    var r := [h] + t;
    forall i, j | 0 <= i < j < |r| ensures key(r[i]) != key(r[j]) {
      assert r[j] == t[j - 1];
      if i > 0 {
        assert r[i] == t[i - 1];
      } else {
        assert r[j] in t;
      }
    }
  }

  /** Sorting a list with distinct keys leaves them distinct, so the result
      is in strictly increasing key order. */
  lemma {:induction false} SortByKeepsDistinct<T>(s: seq<T>, key: T -> real)
    requires KeysDistinct(s, key)
    ensures KeysDistinct(SortBy(s, key), key)
    ensures forall i, j :: 0 <= i < j < |s| ==> key(SortBy(s, key)[i]) < key(SortBy(s, key)[j])
  {
    if s != [] {
      SortByKeepsDistinct(s[1..], key);
      var rest := SortBy(s[1..], key);
      forall y | y in rest ensures key(y) != key(s[0]) {
        assert y in multiset(s[1..]);
        var k :| 0 <= k < |s[1..]| && s[1..][k] == y;
        assert s[k + 1] == y;
      }
      InsertKeepsDistinct(s[0], rest, key);
    }
  }
}
