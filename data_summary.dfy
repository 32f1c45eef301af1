/** The statistics panel of the exoplanet data view: counts, the spread of
    radius, mass and distance over the rows that have all three, the
    temperature range, four size classes, the method tally and the extreme
    rows.  No rows give no statistics; rows of which none is complete make
    the panel fail, because the median of an empty list is `undefined`. */
module DataSummary {
  import opened Common
  import opened Sorting
  import opened Exoplanets

  /** A row with a truthy radius, mass and distance. */
  predicate IsValid(p: Planet)
  {
    Truthy(p.radius) && Truthy(p.mass) && Truthy(p.distance)
  }

  function ValidTest(): Planet -> bool { p => IsValid(p) }

  function Radius(p: Planet): real { ValueOf(p.radius) }
  function Mass(p: Planet): real { ValueOf(p.mass) }
  function Distance(p: Planet): real { ValueOf(p.distance) }

  /** `rows.map(f)`. */
  function Values(rows: seq<Planet>, f: Planet -> real): (vs: seq<real>)
    ensures |vs| == |rows|
    ensures forall i :: 0 <= i < |rows| ==> vs[i] == f(rows[i])
  {
    if rows == [] then [] else [f(rows[0])] + Values(rows[1..], f)
  }

  function RealKey(x: real): real { x }

  /** `sort((a, b) => a - b)`. */
  function Ascending(s: seq<real>): seq<real> { SortBy(s, RealKey) }

  /** `sum / length` of a non-empty list. */
  function Mean(s: seq<real>): real
    requires |s| > 0
  {
    RealSumBy(s, RealKey) / (|s| as real)
  }

  /** The element at `floor(n / 2)` of the sorted list. */
  function Median(s: seq<real>): real
    requires |s| > 0
  {
    Ascending(s)[|s| / 2]
  }

  /** The median is one of the values and lies between the least and the
      greatest. */
  lemma MedianBetween(s: seq<real>)
    requires |s| > 0
    ensures Median(s) in s
    ensures MinOf(s) <= Median(s) <= MaxOf(s)
  {
    var sorted := Ascending(s);
    assert sorted[|s| / 2] in multiset(s);
  }

  lemma {:induction false} SumBetween(s: seq<real>, lo: real, hi: real)
    requires forall i :: 0 <= i < |s| ==> lo <= s[i] <= hi
    ensures (|s| as real) * lo <= RealSumBy(s, RealKey) <= (|s| as real) * hi
  {
    if s != [] {
      SumBetween(s[1..], lo, hi);
      assert (|s| as real) * lo == lo + ((|s| - 1) as real) * lo;
      assert (|s| as real) * hi == hi + ((|s| - 1) as real) * hi;
    }
  }

  lemma QuotientBetween(sum: real, n: real, lo: real, hi: real)
    requires n > 0.0 && n * lo <= sum <= n * hi
    ensures lo <= sum / n <= hi
  {
    var q := sum / n;
    assert sum == q * n;
  }

  /** The mean of values within bounds is within them. */
  lemma MeanWithin(s: seq<real>, lo: real, hi: real)
    requires |s| > 0
    requires forall i :: 0 <= i < |s| ==> lo <= s[i] <= hi
    ensures lo <= Mean(s) <= hi
  {
    SumBetween(s, lo, hi);
    QuotientBetween(RealSumBy(s, RealKey), |s| as real, lo, hi);
  }

  /** The mean lies between the least and the greatest value. */
  lemma MeanBetween(s: seq<real>)
    requires |s| > 0
    ensures MinOf(s) <= Mean(s) <= MaxOf(s)
  {
    MeanWithin(s, MinOf(s), MaxOf(s));
  }

  /** Mean, median, maximum and minimum of one column. */
  datatype Spread = Spread(mean: real, median: real, max: real, min: real)

  function SpreadOf(s: seq<real>): (r: Spread)
    requires |s| > 0
    ensures r.min <= r.median <= r.max && r.min <= r.mean <= r.max
    ensures forall i :: 0 <= i < |s| ==> r.min <= s[i] <= r.max
  {
    MedianBetween(s);
    MeanBetween(s);
    Spread(Mean(s), Median(s), MaxOf(s), MinOf(s))
  }

  // ---------------------------------------------------------------------
  // Temperatures and size classes
  // ---------------------------------------------------------------------

  /** The truthy temperatures of all rows. */
  function Temperatures(data: seq<Planet>): (ts: seq<real>)
    ensures |ts| <= |data|
  {
    if data == [] then []
    else (if Truthy(data[0].temperature) then [data[0].temperature.value] else []) + Temperatures(data[1..])
  }

  /** Average, hottest and coldest temperature, all 0 without temperatures. */
  datatype Heat = Heat(mean: real, hottest: real, coldest: real)

  function HeatOf(ts: seq<real>): (h: Heat)
    ensures ts == [] ==> h == Heat(0.0, 0.0, 0.0)
    ensures ts != [] ==> h.coldest <= h.mean <= h.hottest && h.hottest in ts && h.coldest in ts
    ensures forall i :: 0 <= i < |ts| ==> h.coldest <= ts[i] <= h.hottest
  {
    if ts == [] then Heat(0.0, 0.0, 0.0)
    else
      MeanBetween(ts);
      Heat(Mean(ts), MaxOf(ts), MinOf(ts))
  }

  predicate EarthLike(p: Planet) { 0.5 <= Radius(p) <= 1.5 }
  predicate SuperEarth(p: Planet) { 1.5 < Radius(p) <= 3.0 }
  predicate NeptuneLike(p: Planet) { 3.0 < Radius(p) <= 8.0 }
  predicate GasGiant(p: Planet) { Radius(p) > 8.0 }
  predicate Massive(p: Planet) { Mass(p) > 10.0 }

  function EarthLikeTest(): Planet -> bool { p => EarthLike(p) }
  function SuperEarthTest(): Planet -> bool { p => SuperEarth(p) }
  function NeptuneLikeTest(): Planet -> bool { p => NeptuneLike(p) }
  function GasGiantTest(): Planet -> bool { p => GasGiant(p) }
  function MassiveTest(): Planet -> bool { p => Massive(p) }

  /** The four size classes do not overlap, so together they count at most
      every row. */
  lemma {:induction false} ClassesDisjoint(rows: seq<Planet>)
    ensures Count(rows, EarthLikeTest()) + Count(rows, SuperEarthTest()) + Count(rows, NeptuneLikeTest())
            + Count(rows, GasGiantTest()) <= |rows|
  {
    if rows != [] {
      ClassesDisjoint(rows[1..]);
      var p := rows[0];
      assert Count(rows, EarthLikeTest()) == (if EarthLike(p) then 1 else 0) + Count(rows[1..], EarthLikeTest());
      assert Count(rows, SuperEarthTest()) == (if SuperEarth(p) then 1 else 0) + Count(rows[1..], SuperEarthTest());
      assert Count(rows, NeptuneLikeTest()) == (if NeptuneLike(p) then 1 else 0) + Count(rows[1..], NeptuneLikeTest());
      assert Count(rows, GasGiantTest()) == (if GasGiant(p) then 1 else 0) + Count(rows[1..], GasGiantTest());
    }
  }

  // ---------------------------------------------------------------------
  // Extreme rows
  // ---------------------------------------------------------------------

  function RadiusIs(r: real): Planet -> bool { p => Radius(p) == r }
  function MassIs(m: real): Planet -> bool { p => Mass(p) == m }
  function DistanceIs(d: real): Planet -> bool { p => Distance(p) == d }
  /** `p.pl_eqt === t`: a number equal to `t`; `null` is never equal. */
  function TemperatureIs(t: real): Planet -> bool { (p: Planet) => p.temperature == Num(t) }

  /** A value of a column is found on some row. */
  lemma FoundWhereTaken(rows: seq<Planet>, f: Planet -> real, x: real)
    requires x in Values(rows, f)
    ensures Find(rows, (p: Planet) => f(p) == x).Some?
  {
    var i :| 0 <= i < |rows| && Values(rows, f)[i] == x;
    assert f(rows[i]) == x;
  }

  // ---------------------------------------------------------------------
  // The whole panel
  // ---------------------------------------------------------------------

  datatype Stats = Stats(
    totalPlanets: nat,
    validCount: nat,
    radius: Spread,
    mass: Spread,
    avgDistance: real,
    nearestDistance: real,
    farthestDistance: real,
    temperature: Heat,
    earthLike: nat,
    superEarths: nat,
    neptuneLike: nat,
    gasGiants: nat,
    massivePlanets: nat,
    methodCounts: seq<Entry<string>>,
    largestPlanet: Option<Planet>,
    mostMassive: Option<Planet>,
    nearest: Option<Planet>,
    hottest: Option<Planet>)

  /** No rows; rows of which none is complete (the panel throws); or the
      statistics. */
  datatype Summary = NoData | Failed | Summarised(stats: Stats)

  /** The statistics of non-empty rows, given their method tally. */
  function StatsOf(data: seq<Planet>, methodCounts: seq<Entry<string>>): Summary
  {
    var valid := Filter(data, ValidTest());
    if valid == [] then Failed
    else
      var radius := SpreadOf(Values(valid, Radius));
      var mass := SpreadOf(Values(valid, Mass));
      var distances := Values(valid, Distance);
      var heat := HeatOf(Temperatures(data));
      Summarised(Stats(
        |data|, |valid|, radius, mass,
        Mean(distances), MinOf(distances), MaxOf(distances),
        heat,
        Count(valid, EarthLikeTest()), Count(valid, SuperEarthTest()),
        Count(valid, NeptuneLikeTest()), Count(valid, GasGiantTest()),
        Count(valid, MassiveTest()),
        methodCounts,
        Find(valid, RadiusIs(radius.max)),
        Find(valid, MassIs(mass.max)),
        Find(valid, DistanceIs(MinOf(distances))),
        Find(data, TemperatureIs(heat.hottest))))
  }

  /** The `useMemo` computation, with the method `forEach`. */
  method Summarize(data: Option<seq<Planet>>) returns (s: Summary)
    ensures s == NoData <==> data.None? || data.value == []
    ensures s != NoData ==> s == StatsOf(data.value, Tally(Methods(data.value)))
  {
    if data.None? || data.value == [] {
      return NoData;
    }
    var counts := CountMethods(data.value);
    s := StatsOf(data.value, counts);
  }

  /** The panel fails exactly when no row has a truthy radius, mass and
      distance. */
  lemma FailsIffNoValidRow(data: seq<Planet>, counts: seq<Entry<string>>)
    ensures StatsOf(data, counts) == Failed <==> forall p :: p in data ==> !IsValid(p)
  {
    var valid := Filter(data, ValidTest());
    if valid != [] {
      assert valid[0] in data && IsValid(valid[0]);
    }
  }

  /** The counts and spreads of a summary are consistent: complete rows are
      at most all rows, the size classes and the massive planets at most the
      complete rows, each median and mean between its minimum and maximum,
      the distances likewise, and the largest, most massive and nearest rows
      exist and carry the extreme values. */
  lemma SummaryBounds(data: seq<Planet>, counts: seq<Entry<string>>)
    requires StatsOf(data, counts).Summarised?
    ensures var st := StatsOf(data, counts).stats;
            && st.validCount <= st.totalPlanets == |data|
            && st.earthLike + st.superEarths + st.neptuneLike + st.gasGiants <= st.validCount
            && st.massivePlanets <= st.validCount
            && st.radius.min <= st.radius.median <= st.radius.max
            && st.mass.min <= st.mass.median <= st.mass.max
            && st.nearestDistance <= st.avgDistance <= st.farthestDistance
            && st.largestPlanet.Some? && Radius(st.largestPlanet.value) == st.radius.max
            && st.mostMassive.Some? && Mass(st.mostMassive.value) == st.mass.max
            && st.nearest.Some? && Distance(st.nearest.value) == st.nearestDistance
  {
    var valid := Filter(data, ValidTest());
    ClassesDisjoint(valid);
    var distances := Values(valid, Distance);
    MeanBetween(distances);
    FoundWhereTaken(valid, Radius, MaxOf(Values(valid, Radius)));
    FoundWhereTaken(valid, Mass, MaxOf(Values(valid, Mass)));
    FoundWhereTaken(valid, Distance, MinOf(distances));
    assert RadiusIs(MaxOf(Values(valid, Radius))) == (p: Planet) => Radius(p) == MaxOf(Values(valid, Radius));
    assert MassIs(MaxOf(Values(valid, Mass))) == (p: Planet) => Mass(p) == MaxOf(Values(valid, Mass));
    assert DistanceIs(MinOf(distances)) == (p: Planet) => Distance(p) == MinOf(distances);
  }

  /** Without temperatures the temperature figures are 0, and then the
      "hottest" row is the first whose temperature is exactly 0, if any. */
  lemma NoTemperatures(data: seq<Planet>, counts: seq<Entry<string>>)
    requires StatsOf(data, counts).Summarised?
    requires Temperatures(data) == []
    ensures var st := StatsOf(data, counts).stats;
            && st.temperature == Heat(0.0, 0.0, 0.0)
            && st.hottest == Find(data, TemperatureIs(0.0))
  {
  }
}
