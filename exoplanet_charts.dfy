/** The chart data of the exoplanet charts view: five radius buckets, two
    scatter series, the discovery-method bars and the discovery timeline,
    all computed from the rows at once, or nothing for no rows. */
module ExoplanetCharts {
  import opened Common
  import opened Sorting
  import opened Exoplanets

  // ---------------------------------------------------------------------
  // Radius distribution
  // ---------------------------------------------------------------------

  /** The lower bounds 0, 1, 2, 4 and 8 Earth radii of buckets 0 to 4. */
  function BucketMin(k: nat): real
  {
    if k == 0 then 0.0 else if k == 1 then 1.0 else if k == 2 then 2.0 else if k == 3 then 4.0 else 8.0
  }

  /** The upper bounds 1, 2, 4 and 8; `None` is the last bucket's `Infinity`. */
  function BucketMax(k: nat): Option<real>
  {
    if k == 0 then Some(1.0) else if k == 1 then Some(2.0) else if k == 2 then Some(4.0)
    else if k == 3 then Some(8.0) else None
  }

  /** `r >= range.min && r < range.max`. */
  predicate InRangeValue(k: nat, r: real)
  {
    BucketMin(k) <= r && (BucketMax(k).None? || r < BucketMax(k).value)
  }

  /** The test applied to a row: a missing radius compares as NaN and is in
      no bucket, a `null` one compares as 0. */
  predicate InRange(k: nat, p: Planet)
  {
    var c := Compared(p.radius);
    c.Some? && InRangeValue(k, c.value)
  }

  function InRangeTest(k: nat): Planet -> bool
  {
    p => InRange(k, p)
  }

  /** The bucket of a non-negative radius. */
  function BucketOf(r: real): nat
  {
    if r < 1.0 then 0 else if r < 2.0 then 1 else if r < 4.0 then 2 else if r < 8.0 then 3 else 4
  }

  /** The five ranges are contiguous from 0 upward: a radius lies in a
      bucket exactly when it is non-negative and that bucket is its own. */
  lemma RangesPartition(r: real)
    ensures forall k :: 0 <= k < 5 ==> (InRangeValue(k, r) <==> r >= 0.0 && k == BucketOf(r))
  {
  }

  /** The count per bucket. */
  function RadiusDistribution(data: seq<Planet>): (counts: seq<nat>)
    ensures |counts| == 5
  {
    [Count(data, InRangeTest(0)), Count(data, InRangeTest(1)), Count(data, InRangeTest(2)),
     Count(data, InRangeTest(3)), Count(data, InRangeTest(4))]
  }

  /** A row whose radius compares as a non-negative number. */
  predicate Countable(p: Planet)
  {
    var c := Compared(p.radius);
    c.Some? && c.value >= 0.0
  }

  function CountableTest(): Planet -> bool
  {
    p => Countable(p)
  }

  /** Every row with a comparable non-negative radius is counted in exactly
      one bucket, so the bucket counts add up to the number of such rows. */
  lemma {:induction false} BucketCountsAddUp(data: seq<Planet>)
    ensures var c := RadiusDistribution(data);
            c[0] + c[1] + c[2] + c[3] + c[4] == Count(data, CountableTest())
  {
    if data != [] {
      BucketCountsAddUp(data[1..]);
      var p := data[0];
      if Compared(p.radius).Some? {
        RangesPartition(Compared(p.radius).value);
      }
      CountStep(data, InRangeTest(0));
      CountStep(data, InRangeTest(1));
      CountStep(data, InRangeTest(2));
      CountStep(data, InRangeTest(3));
      CountStep(data, InRangeTest(4));
      CountStep(data, CountableTest());
    }
  }

  // ---------------------------------------------------------------------
  // Scatter series
  // ---------------------------------------------------------------------

  /** A plotted point, with the row's name, its type (`'Unknown'` when
      missing) and one more column for the tooltip. */
  datatype Point = Point(x: real, y: real, name: string, kind: string, extra: Num)

  /** `data.filter(keep).map(point)`. */
  function Plot(data: seq<Planet>, keep: Planet -> bool, point: Planet -> Point): (pts: seq<Point>)
    ensures |pts| == Count(data, keep)
  {
    if data == [] then []
    else (if keep(data[0]) then [point(data[0])] else []) + Plot(data[1..], keep, point)
  }

  /** Plotting goes row by row: the points of two row lists one after the
      other are the points of the joined list. */
  lemma {:induction false} PlotAppend(a: seq<Planet>, b: seq<Planet>, keep: Planet -> bool, point: Planet -> Point)
    ensures Plot(a + b, keep, point) == Plot(a, keep, point) + Plot(b, keep, point)
  {
    if a != [] {
      var h := if keep(a[0]) then [point(a[0])] else [];
      assert Plot(a + b, keep, point) == h + Plot(a[1..] + b, keep, point) by {
        assert (a + b)[0] == a[0];
        assert (a + b)[1..] == a[1..] + b;
      }
      PlotAppend(a[1..], b, keep, point);
      assert Plot(a, keep, point) == h + Plot(a[1..], keep, point);
    } else {
      assert a + b == b;
    }
  }

  /** A point is plotted exactly for a kept row. */
  lemma {:induction false} PlotMembership(data: seq<Planet>, keep: Planet -> bool, point: Planet -> Point)
    ensures forall q :: q in Plot(data, keep, point) <==> exists p :: p in data && keep(p) && point(p) == q
  {
    if data != [] {
      PlotMembership(data[1..], keep, point);
      forall q | (exists p :: p in data && keep(p) && point(p) == q)
        ensures q in Plot(data, keep, point)
      {
        var p :| p in data && keep(p) && point(p) == q;
        if p != data[0] {
          assert p in data[1..];
        }
      }
    }
  }

  function DistanceMassKept(): Planet -> bool
  {
    (p: Planet) => Truthy(p.distance) && Truthy(p.mass)
  }

  function DistanceMassPoint(): Planet -> Point
  {
    (p: Planet) => Point(ValueOf(p.distance), ValueOf(p.mass), p.name, OrElse(p.kind, "Unknown"), p.temperature)
  }

  function TemperatureRadiusKept(): Planet -> bool
  {
    (p: Planet) => Truthy(p.temperature) && Truthy(p.radius)
  }

  function TemperatureRadiusPoint(): Planet -> Point
  {
    (p: Planet) => Point(ValueOf(p.temperature), ValueOf(p.radius), p.name, OrElse(p.kind, "Unknown"), p.distance)
  }

  // ---------------------------------------------------------------------
  // Discovery methods
  // ---------------------------------------------------------------------

  const Grey := "#6b7280"

  /** The colour table lookup with the grey fallback. */
  function MethodColour(m: string): (c: string)
    ensures !(m == "Transit" || m == "Radial Velocity" || m == "Direct Imaging" || m == "Gravitational Microlensing") ==> c == Grey
    ensures m == "Unknown" ==> c == Grey
  {
    if m == "Transit" then "#3b82f6"
    else if m == "Radial Velocity" then "#22c55e"
    else if m == "Direct Imaging" then "#f59e0b"
    else if m == "Gravitational Microlensing" then "#ef4444"
    else if m == "Unknown" then Grey
    else Grey
  }

  datatype MethodBar = MethodBar(discoveryMethod: string, count: nat, colour: string)

  /** `Object.entries(methodCounts).map(...)`: one bar per entry, in order. */
  function MethodBars(counts: seq<Entry<string>>): (bars: seq<MethodBar>)
    ensures |bars| == |counts|
    ensures forall i :: 0 <= i < |counts| ==> bars[i] == MethodBar(counts[i].key, counts[i].count, MethodColour(counts[i].key))
  {
    if counts == [] then []
    else [MethodBar(counts[0].key, counts[0].count, MethodColour(counts[0].key))] + MethodBars(counts[1..])
  }

  // ---------------------------------------------------------------------
  // Discovery timeline
  // ---------------------------------------------------------------------

  /** The truthy discovery years, in row order. */
  function YearsOf(data: seq<Planet>): (years: seq<int>)
    ensures |years| <= |data|
    ensures forall y :: y in years ==> y != 0 && exists p :: p in data && p.year == Some(y)
  {
    if data == [] then []
    else
      var last := data[|data| - 1];
      var rest := YearsOf(data[..|data| - 1]);
      assert forall p :: p in data[..|data| - 1] ==> p in data;
      rest + (if last.year.Some? && last.year.value != 0 then [last.year.value] else [])
  }

  /** The `forEach` that counts rows per truthy year. */
  method CountYears(data: seq<Planet>) returns (counts: seq<Entry<int>>)
    ensures counts == Tally(YearsOf(data))
  {
    counts := [];
    var i := 0;
    while i < |data|
      invariant 0 <= i <= |data|
      invariant counts == Tally(YearsOf(data[..i]))
    {
      var year := data[i].year;
      assert YearsOf(data[..i + 1]) == YearsOf(data[..i]) + (if year.Some? && year.value != 0 then [year.value] else []) by {
        assert data[..i + 1][..i] == data[..i];
      }
      if year.Some? && year.value != 0 {
        TallySnoc(YearsOf(data[..i]), year.value);
        counts := Bump(counts, year.value);
      } else {
        assert YearsOf(data[..i + 1]) == YearsOf(data[..i]);
      }
      i := i + 1;
    }
    assert data[..|data|] == data;
  }

  function YearKey(e: Entry<int>): real { e.key as real }

  /** The timeline: the year counts sorted by year. */
  function Timeline(counts: seq<Entry<int>>): seq<Entry<int>>
  {
    SortBy(counts, YearKey)
  }

  /** A key of a tally with distinct keys looks up to its entry's count. */
  lemma {:induction false} LookupEntry<K>(t: seq<Entry<K>>, e: Entry<K>)
    requires DistinctKeys(t) && e in t
    ensures Lookup(t, e.key) == e.count
  {
    if t[0] != e {
      assert e in t[1..];
      var k :| 0 <= k < |t[1..]| && t[1..][k] == e;
      assert t[0].key != t[k + 1].key;
      LookupEntry(t[1..], e);
    }
  }

  /** The timeline has strictly increasing years, each counting the rows
      discovered that year, and its counts add up to the number of rows
      with a truthy year. */
  lemma TimelineMeaning(data: seq<Planet>)
    ensures var years := YearsOf(data);
            var t := Timeline(Tally(years));
            && (forall i, j :: 0 <= i < j < |t| ==> t[i].key < t[j].key)
            && (forall e :: e in t ==> e.count == multiset(years)[e.key] && e.count > 0)
            && SumBy(t, EntryCount) == |years|
  {
    var years := YearsOf(data);
    var tally := Tally(years);
    TallyMeaning(years);
    assert KeysDistinct(tally, YearKey);
    SortByKeepsDistinct(tally, YearKey);
    SortBySum(tally, YearKey, EntryCount);
    var t := Timeline(tally);
    forall e | e in t ensures e.count == multiset(years)[e.key] && e.count > 0 {
      assert e in multiset(tally);
      LookupEntry(tally, e);
    }
  }

  // ---------------------------------------------------------------------
  // All chart data
  // ---------------------------------------------------------------------

  datatype Charts = Charts(
    radiusDistribution: seq<nat>,
    distanceMass: seq<Point>,
    discoveryMethods: seq<MethodBar>,
    temperatureRadius: seq<Point>,
    discoveryTimeline: seq<Entry<int>>)

  /** `chartData`: nothing for missing or empty rows, else the five series. */
  method ChartData(data: Option<seq<Planet>>) returns (charts: Option<Charts>)
    ensures charts.None? <==> data.None? || data.value == []
    ensures charts.Some? ==>
              var d := data.value;
              && charts.value.radiusDistribution == RadiusDistribution(d)
              && charts.value.distanceMass == Plot(d, DistanceMassKept(), DistanceMassPoint())
              && charts.value.discoveryMethods == MethodBars(Tally(Methods(d)))
              && charts.value.temperatureRadius == Plot(d, TemperatureRadiusKept(), TemperatureRadiusPoint())
              && charts.value.discoveryTimeline == Timeline(Tally(YearsOf(d)))
  {
    if data.None? || data.value == [] {
      return None;
    }
    var d := data.value;
    var methodCounts := CountMethods(d);
    var yearCounts := CountYears(d);
    charts := Some(Charts(
      RadiusDistribution(d),
      Plot(d, DistanceMassKept(), DistanceMassPoint()),
      MethodBars(methodCounts),
      Plot(d, TemperatureRadiusKept(), TemperatureRadiusPoint()),
      Timeline(yearCounts)));
  }
}
