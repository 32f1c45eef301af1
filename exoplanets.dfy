/** The exoplanet rows the two data views read, JavaScript's treatment of
    their numeric columns (truthiness, and what a comparison sees), and the
    per-key tally both views build with `counts[key] = (counts[key] || 0) + 1`:
    a list of entries in first-appearance order, as `Object.entries` lists
    string keys. */
module Exoplanets {
  import opened Common

  /** A numeric column: missing from the row, `null`, or a number. */
  datatype Num = Absent | Null | Num(value: real)

  /** A number is truthy unless it is zero; `null` and a missing column are not. */
  predicate Truthy(n: Num) { n.Num? && n.value != 0.0 }

  /** What `>=` and `<` compare: `null` becomes 0, a missing column NaN. */
  function Compared(n: Num): Option<real>
  {
    match n
    case Absent => None
    case Null => Some(0.0)
    case Num(v) => Some(v)
  }

  /** The value of a truthy column. */
  function ValueOf(n: Num): real { if n.Num? then n.value else 0.0 }

  /** One row: `pl_name`, `pl_rade`, `pl_masse`, `sy_dist`, `pl_eqt`,
      `disc_year`, `discoverymethod` and `pl_type`. */
  datatype Planet = Planet(
    name: string,
    radius: Num,
    mass: Num,
    distance: Num,
    temperature: Num,
    year: Option<int>,
    discoveryMethod: Option<string>,
    kind: Option<string>)

  /** `s || fallback` on an optional string. */
  function OrElse(s: Option<string>, fallback: string): (r: string)
    ensures s.Some? && s.value != "" ==> r == s.value
    ensures s.None? || s.value == "" ==> r == fallback
  {
    if s.Some? && s.value != "" then s.value else fallback
  }

  /** `planet.discoverymethod || 'Unknown'`. */
  function MethodOf(p: Planet): string { OrElse(p.discoveryMethod, "Unknown") }

  /** The method key of every row, in row order. */
  function Methods(data: seq<Planet>): (keys: seq<string>)
    ensures |keys| == |data|
    ensures forall i :: 0 <= i < |data| ==> keys[i] == MethodOf(data[i])
  {
    if data == [] then [] else Methods(data[..|data| - 1]) + [MethodOf(data[|data| - 1])]
  }

  // ---------------------------------------------------------------------
  // Tallies
  // ---------------------------------------------------------------------

  datatype Entry<K> = Entry(key: K, count: nat)

  function EntryCount<K>(e: Entry<K>): int { e.count }

  predicate DistinctKeys<K(==)>(t: seq<Entry<K>>)
  {
    forall i, j :: 0 <= i < j < |t| ==> t[i].key != t[j].key
  }

  /** `counts[k] = (counts[k] || 0) + 1`: an existing key keeps its place
      and counts one more, a new key goes last with count 1. */
  function Bump<K(==)>(t: seq<Entry<K>>, k: K): seq<Entry<K>>
  {
    if t == [] then [Entry(k, 1)]
    else if t[0].key == k then [Entry(k, t[0].count + 1)] + t[1..]
    else [t[0]] + Bump(t[1..], k)
  }

  /** The count of key `k`, 0 when absent. */
  function Lookup<K(==)>(t: seq<Entry<K>>, k: K): nat
  {
    if t == [] then 0
    else if t[0].key == k then t[0].count
    else Lookup(t[1..], k)
  }

  /** The tally of a key list, key by key from the front. */
  function Tally<K(==)>(keys: seq<K>): seq<Entry<K>>
  {
    if keys == [] then [] else Bump(Tally(keys[..|keys| - 1]), keys[|keys| - 1])
  }

  /** Tallying one more key bumps it. */
  lemma TallySnoc<K>(keys: seq<K>, k: K)
    ensures Tally(keys + [k]) == Bump(Tally(keys), k)
  {
    assert (keys + [k])[..|keys|] == keys;
  }

  lemma {:induction false} BumpMeaning<K>(t: seq<Entry<K>>, k: K)
    requires DistinctKeys(t)
    ensures var b := Bump(t, k);
            && DistinctKeys(b)
            && (forall j :: Lookup(b, j) == Lookup(t, j) + (if j == k then 1 else 0))
            && SumBy(b, EntryCount) == SumBy(t, EntryCount) + 1
            && (forall e :: e in b ==> e in t || e.key == k)
            && ((forall e :: e in t ==> e.count > 0) ==> forall e :: e in b ==> e.count > 0)
  {
    if t != [] && t[0].key != k {
      BumpMeaning(t[1..], k);
      var b := Bump(t, k);
      var rest := Bump(t[1..], k);
      assert b[1..] == rest;
      forall i, j | 0 <= i < j < |b| ensures b[i].key != b[j].key {
        if i == 0 {
          assert b[j] in rest;
          assert b[j] in t[1..] || b[j].key == k;
        }
      }
    } else if t != [] {
      var b := Bump(t, k);
      assert b[1..] == t[1..];
      forall i, j | 0 <= i < j < |b| ensures b[i].key != b[j].key {
        if i == 0 {
          assert t[0].key != t[j].key;
        }
      }
      LookupAbsent(t[1..], k);
    }
  }

  /** A key that no entry holds looks up as 0. */
  lemma {:induction false} LookupAbsent<K>(t: seq<Entry<K>>, k: K)
    requires forall e :: e in t ==> e.key != k
    ensures Lookup(t, k) == 0
  {
    if t != [] {
      LookupAbsent(t[1..], k);
    }
  }

  /** The tally has one entry per distinct key, each key's entry counts
      its occurrences, every entry counts at least one, and the counts add
      up to the number of keys tallied. */
  lemma {:induction false} TallyMeaning<K>(keys: seq<K>)
    ensures DistinctKeys(Tally(keys))
    ensures forall k :: Lookup(Tally(keys), k) == multiset(keys)[k]
    ensures forall e :: e in Tally(keys) ==> e.count > 0 && e.key in keys
    ensures SumBy(Tally(keys), EntryCount) == |keys|
  {
    if keys != [] {
      var init := keys[..|keys| - 1];
      var last := keys[|keys| - 1];
      TallyMeaning(init);
      BumpMeaning(Tally(init), last);
      assert keys == init + [last];
      assert multiset(keys) == multiset(init) + multiset{last};
    }
  }

  /** The `forEach` that tallies discovery methods, `'Unknown'` for a row
      without one. */
  method CountMethods(data: seq<Planet>) returns (counts: seq<Entry<string>>)
    ensures counts == Tally(Methods(data))
  {
    counts := [];
    var i := 0;
    while i < |data|
      invariant 0 <= i <= |data|
      invariant counts == Tally(Methods(data[..i]))
    {
      assert data[..i + 1][..i] == data[..i];
      counts := Bump(counts, MethodOf(data[i]));
      i := i + 1;
    }
    assert data[..|data|] == data;
  }

  /** Each method's count is the number of rows with that method, and the
      counts add up to the number of rows. */
  lemma MethodCountsMeaning(data: seq<Planet>)
    ensures var t := Tally(Methods(data));
            && DistinctKeys(t)
            && SumBy(t, EntryCount) == |data|
            && forall m :: Lookup(t, m) == multiset(Methods(data))[m]
  {
    TallyMeaning(Methods(data));
  }
}
