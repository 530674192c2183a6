/** Turning the datapoints of a CloudWatch response into series, with a null point wherever a
    period passed without data. Times are whole seconds. */
module GapFill {
  import opened Options

  datatype Datapoint = Datapoint(timestamp: int, average: int, maximum: int, minimum: int, sum: int, sampleCount: int,
    extended: map<string, int>)

  /** A point of a series; its time is in milliseconds. */
  datatype Point = Point(value: Option<int>, time: int)

  /** A reading of one statistic. */
  datatype Sample = Sample(timestamp: int, value: int)

  // ---------- what the loop computes

  /** The nulls from next on, strictly before t. */
  function Gap(next: int, t: int, period: int): seq<Point>
    requires period > 0
    decreases t - next
  {
    if t > next then [Point(None, next * 1000)] + Gap(next + period, t, period) else []
  }

  function Points(samples: seq<Sample>, period: int): seq<Point>
    requires period > 0
  {
    if samples == [] then [] else Points(samples[..|samples| - 1], period) + Round(samples, period)
  }

  /** The points the last sample adds. */
  function Round(samples: seq<Sample>, period: int): seq<Point>
    requires period > 0 && samples != []
  {
    var s := samples[|samples| - 1];
    (if |samples| == 1 then [] else Gap(samples[|samples| - 2].timestamp + period, s.timestamp, period))
    + [Point(Some(s.value), s.timestamp * 1000)]
  }

  // ---------- what it means

  predicate Increasing(samples: seq<Sample>) {
    forall i :: 0 < i < |samples| ==> samples[i - 1].timestamp < samples[i].timestamp
  }

  /** The points that carry data, as samples. */
  function Data(points: seq<Point>): seq<Sample> {
    if points == [] then []
    else
      var p := points[|points| - 1];
      Data(points[..|points| - 1]) + if p.value.Some? then [Sample(p.time / 1000, p.value.value)] else []
  }

  lemma {:induction false} DataConcat(a: seq<Point>, b: seq<Point>)
    ensures Data(a + b) == Data(a) + Data(b)
  {
    if b == [] {
      assert a + b == a;
    } else {
      assert (a + b)[..|a + b| - 1] == a + b[..|b| - 1];
      DataConcat(a, b[..|b| - 1]);
    }
  }

  lemma {:induction false} GapHasNoData(next: int, t: int, period: int)
    requires period > 0
    ensures Data(Gap(next, t, period)) == []
    decreases t - next
  {
    if t > next {
      GapHasNoData(next + period, t, period);
      DataConcat([Point(None, next * 1000)], Gap(next + period, t, period));
    }
  }

  lemma RoundData(samples: seq<Sample>, period: int)
    requires period > 0 && samples != []
    ensures Data(Round(samples, period)) == [samples[|samples| - 1]]
  {
    var n := |samples| - 1;
    var s := samples[n];
    var last := [Point(Some(s.value), s.timestamp * 1000)];
    assert Data(last) == [s] by {
      assert last[..0] == [];
    }
    if n > 0 {
      var gap := Gap(samples[n - 1].timestamp + period, s.timestamp, period);
      GapHasNoData(samples[n - 1].timestamp + period, s.timestamp, period);
      DataConcat(gap, last);
    }
  }

  lemma NoPoints(period: int)
    requires period > 0
    ensures Data(Points([], period)) == []
  {
  }

  lemma PointsStep(samples: seq<Sample>, period: int)
    requires period > 0 && samples != []
    ensures var n := |samples| - 1;
      Points(samples, period) == Points(samples[..n], period) + Round(samples, period)
      && samples == samples[..n] + [samples[n]]
  {
  }

  /** Filling gaps loses, repeats and reorders nothing. */
  lemma {:induction false} DataKept(samples: seq<Sample>, period: int)
    requires period > 0
    ensures Data(Points(samples, period)) == samples
  {
    hide *;
    if samples == [] {
      NoPoints(period);
    } else {
      PointsStep(samples, period);
      DataKept(samples[..|samples| - 1], period);
      RoundData(samples, period);
      DataConcat(Points(samples[..|samples| - 1], period), Round(samples, period));
    }
  }

  /** A null is due at a time: a whole number of periods after a sample and strictly before the
      next one. */
  ghost predicate Due(samples: seq<Sample>, period: int, time: int) {
    exists i, k: int :: DueAt(samples, period, i, k, time)
  }

  predicate DueAt(samples: seq<Sample>, period: int, i: int, k: int, time: int) {
    0 < i < |samples| && Between(samples[i - 1].timestamp, samples[i].timestamp, period, k, time)
  }

  predicate Between(from: int, to: int, period: int, k: int, time: int) {
    k >= 1 && from + k * period < to && time == (from + k * period) * 1000
  }

  lemma {:induction false} GapExactly(from: int, k: int, t: int, period: int, time: int)
    requires period > 0 && k >= 1
    ensures Point(None, time) in Gap(from + k * period, t, period)
      <==> exists j :: j >= k && Between(from, t, period, j, time)
    decreases t - (from + k * period)
  {
    if t > from + k * period {
      assert from + k * period + period == from + (k + 1) * period;
      GapExactly(from, k + 1, t, period, time);
      var next := from + k * period;
      assert Gap(next, t, period) == [Point(None, next * 1000)] + Gap(next + period, t, period);
      hide Gap;
      if time == (from + k * period) * 1000 {
        assert Between(from, t, period, k, time);
      }
    } else {
      forall j | j >= k ensures !Between(from, t, period, j, time) {
        assert j * period >= k * period;
      }
    }
  }

  /** The nulls are exactly the ones due. */
  lemma {:induction false} NullsExactly(samples: seq<Sample>, period: int, time: int)
    requires period > 0
    ensures Point(None, time) in Points(samples, period) <==> Due(samples, period, time)
  {
    if |samples| > 0 {
      NullsExactly(samples[..|samples| - 1], period, time);
      RoundNulls(samples, period, time);
      DueSplit(samples, period, time);
      hide Round;
    }
  }

  lemma RoundNulls(samples: seq<Sample>, period: int, time: int)
    requires period > 0 && samples != []
    ensures var n := |samples| - 1;
      Point(None, time) in Round(samples, period) <==> exists k: int :: DueAt(samples, period, n, k, time)
  {
    var n := |samples| - 1;
    var last := [Point(Some(samples[n].value), samples[n].timestamp * 1000)];
    assert Point(None, time) !in last;
    if n > 0 {
      var from, to := samples[n - 1].timestamp, samples[n].timestamp;
      GapExactly(from, 1, to, period, time);
      hide Gap;
      assert from + 1 * period == from + period;
      assert forall k: int :: DueAt(samples, period, n, k, time) <==> Between(from, to, period, k, time);
      assert Round(samples, period) == Gap(from + period, to, period) + last;
    }
  }

  lemma DueSplit(samples: seq<Sample>, period: int, time: int)
    requires samples != []
    ensures var n := |samples| - 1;
      Due(samples, period, time) <==> Due(samples[..n], period, time) || exists k :: DueAt(samples, period, n, k, time)
  {
    var n := |samples| - 1;
    var front := samples[..n];
    if Due(front, period, time) {
      var i, k: int :| DueAt(front, period, i, k, time);
      assert DueAt(samples, period, i, k, time);
    }
    if Due(samples, period, time) {
      var i, k: int :| DueAt(samples, period, i, k, time);
      if i < n {
        assert DueAt(front, period, i, k, time);
      }
    }
  }

  /** Each point comes after the one before it, by at most a period. */
  predicate Steady(points: seq<Point>, period: int) {
    forall j :: 0 < j < |points| ==> points[j - 1].time < points[j].time <= points[j - 1].time + period * 1000
  }

  lemma {:induction false} GapSteady(next: int, t: int, period: int)
    requires period > 0
    ensures Steady(Gap(next, t, period), period)
    ensures t > next ==> Gap(next, t, period) != [] && Gap(next, t, period)[0].time == next * 1000
    ensures var g := Gap(next, t, period); g != [] ==> g[|g| - 1].time < t * 1000 <= g[|g| - 1].time + period * 1000
    decreases t - next
  {
    if t > next {
      GapSteady(next + period, t, period);
    }
  }

  lemma RoundSteady(samples: seq<Sample>, period: int)
    requires period > 0 && |samples| > 1 && Increasing(samples)
    ensures var r, from := Round(samples, period), samples[|samples| - 2].timestamp * 1000;
      Steady(r, period) && r != [] && from < r[0].time <= from + period * 1000
  {
    var n := |samples| - 1;
    var from, to := samples[n - 1].timestamp, samples[n].timestamp;
    var gap, last := Gap(from + period, to, period), [Point(Some(samples[n].value), to * 1000)];
    GapSteady(from + period, to, period);
    assert Round(samples, period) == gap + last;
    assert to <= from + period ==> gap == [];
    assert Steady(last, period);
    if gap == [] {
      assert gap + last == last;
    } else {
      hide Gap, Round, Steady;
      SteadyConcat(gap, last, period);
    }
  }

  lemma LonePoint(samples: seq<Sample>, period: int)
    requires period > 0 && |samples| == 1
    ensures Round(samples, period) == [Point(Some(samples[0].value), samples[0].timestamp * 1000)] &&
      Steady(Round(samples, period), period)
  {
  }

  lemma SteadyConcat(a: seq<Point>, b: seq<Point>, period: int)
    requires Steady(a, period) && Steady(b, period) && a != [] && b != []
    requires a[|a| - 1].time < b[0].time <= a[|a| - 1].time + period * 1000
    ensures Steady(a + b, period)
  {
  }

  /** Times strictly increase, by at most a period. */
  lemma {:induction false} PointsSteady(samples: seq<Sample>, period: int)
    requires period > 0 && Increasing(samples)
    ensures Steady(Points(samples, period), period)
    ensures samples != [] ==> var ps := Points(samples, period);
      ps != [] && ps[|ps| - 1].time == samples[|samples| - 1].timestamp * 1000
  {
    if |samples| > 0 {
      hide Steady;
      var front := samples[..|samples| - 1];
      PointsSteady(front, period);
      if front == [] {
        LonePoint(samples, period);
        assert Points(samples, period) == Round(samples, period);
      } else {
        RoundSteady(samples, period);
        SteadyConcat(Points(front, period), Round(samples, period), period);
      }
    }
  }

  // ---------- reading a statistic

  /** The value of a statistic at a datapoint; one that is not there leaves the value as it was. */
  function Reading(statistic: string, d: Datapoint, value: int): int {
    if statistic == "Average" then d.average
    else if statistic == "Maximum" then d.maximum
    else if statistic == "Minimum" then d.minimum
    else if statistic == "Sum" then d.sum
    else if statistic == "SampleCount" then d.sampleCount
    else if statistic != "" && statistic[0] == 'p' && statistic in d.extended then d.extended[statistic]
    else value
  }

  /** Of which field of a datapoint a statistic shows the value: the one it names, for five names; for
      a percentile, the extended statistic of its name; and if the datapoint has no such value, the
      one before. */
  predicate ReadFrom(name: string, d: Datapoint, shown: int, before: int) {
    && (name == "Average" ==> shown == d.average)
    && (name == "Maximum" ==> shown == d.maximum)
    && (name == "Minimum" ==> shown == d.minimum)
    && (name == "Sum" ==> shown == d.sum)
    && (name == "SampleCount" ==> shown == d.sampleCount)
    && (name != "" && name[0] == 'p' && name in d.extended ==> shown == d.extended[name])
    && (name in ["Average", "Maximum", "Minimum", "Sum", "SampleCount"]
        || (name != "" && name[0] == 'p' && name in d.extended) || shown == before)
  }

  /** What each sample of a response shows. */
  lemma SampleShows(statistics: seq<string>, datapoints: seq<Datapoint>, s: nat, i: nat)
    requires s < |statistics| && i < |datapoints|
    ensures var samples := SamplesOf(statistics, datapoints, s);
      && samples[i].timestamp == datapoints[i].timestamp
      && ReadFrom(statistics[s], datapoints[i], samples[i].value,
           if i > 0 then samples[i - 1].value
           else if s > 0 then SamplesOf(statistics, datapoints, s - 1)[|datapoints| - 1].value else 0)
  {
    var name, n := statistics[s], |datapoints|;
    var value := CarriedAll(statistics[..s], datapoints);
    SampleAt(name, datapoints, value, i);
    SamplesStep(name, datapoints, i, value);
    ReadingReads(name, datapoints[i], Carried(name, datapoints[..i], value));
    hide Samples, Reading, ReadFrom;
    if i > 0 {
      SampleAt(name, datapoints, value, i - 1);
    } else {
      assert datapoints[..0] == [];
      if s > 0 {
        CarriedAllStep(statistics, datapoints, s - 1);
        SampleAt(statistics[s - 1], datapoints, CarriedAll(statistics[..s - 1], datapoints), n - 1);
        assert datapoints[..n] == datapoints;
      }
    }
  }

  /** The points of the s-th series that carry data are one for each datapoint, at its time, and show
      the value that its statistic is read from; what is missing at the first is the last value of the
      series before. */
  ghost predicate SeriesShows(statistics: seq<string>, datapoints: seq<Datapoint>, series: seq<seq<Point>>, s: nat)
    requires s < |series| == |statistics|
  {
    var data, n := Data(series[s]), |datapoints|;
    && |data| == n
    && (s > 0 ==> |Data(series[s - 1])| == n)
    && (forall i :: 0 <= i < n ==> data[i].timestamp == datapoints[i].timestamp)
    && (forall i :: 0 < i < n ==> ReadFrom(statistics[s], datapoints[i], data[i].value, data[i - 1].value))
    && (n > 0 ==>
          ReadFrom(statistics[s], datapoints[0], data[0].value, if s > 0 then Data(series[s - 1])[n - 1].value else 0))
  }

  lemma SamplesShow(statistics: seq<string>, datapoints: seq<Datapoint>, series: seq<seq<Point>>, s: nat)
    requires s < |series| == |statistics|
    requires forall r :: 0 <= r < |series| ==> Data(series[r]) == SamplesOf(statistics, datapoints, r)
    ensures SeriesShows(statistics, datapoints, series, s)
  {
    var data, n := Data(series[s]), |datapoints|;
    assert data == SamplesOf(statistics, datapoints, s) && |data| == n;
    if s > 0 { assert Data(series[s - 1]) == SamplesOf(statistics, datapoints, s - 1); }
    hide Data, Samples, CarriedAll, ReadFrom;
    forall i | 0 < i < n ensures ReadFrom(statistics[s], datapoints[i], data[i].value, data[i - 1].value) {
      SampleShows(statistics, datapoints, s, i);
    }
    if n > 0 { SampleShows(statistics, datapoints, s, 0); }
  }

  lemma ReadingReads(name: string, d: Datapoint, before: int)
    ensures ReadFrom(name, d, Reading(name, d, before), before)
  {
  }

  /** Whether a datapoint has a value for the statistic that the loop takes. */
  predicate Shows(statistic: string, d: Datapoint) {
    || statistic in ["Average", "Maximum", "Minimum", "Sum", "SampleCount"]
    || (statistic != "" && statistic[0] == 'p' && statistic in d.extended)
  }

  function Samples(statistic: string, datapoints: seq<Datapoint>, value: int): (samples: seq<Sample>)
    ensures |samples| == |datapoints|
    ensures forall i :: 0 <= i < |samples| ==> samples[i].timestamp == datapoints[i].timestamp
  {
    if datapoints == [] then []
    else
      var n := |datapoints| - 1;
      Samples(statistic, datapoints[..n], value)
        + [Sample(datapoints[n].timestamp, Carried(statistic, datapoints, value))]
  }

  /** The value after the last datapoint. */
  function Carried(statistic: string, datapoints: seq<Datapoint>, value: int): int {
    if datapoints == [] then value
    else Reading(statistic, datapoints[|datapoints| - 1], Carried(statistic, datapoints[..|datapoints| - 1], value))
  }

  predicate Sorted(datapoints: seq<Datapoint>) {
    forall i, j :: 0 <= i < j < |datapoints| ==> datapoints[i].timestamp <= datapoints[j].timestamp
  }

  predicate DistinctTimes(datapoints: seq<Datapoint>) {
    forall i, j :: 0 <= i < j < |datapoints| ==> datapoints[i].timestamp != datapoints[j].timestamp
  }

  function CarriedAll(statistics: seq<string>, datapoints: seq<Datapoint>): int {
    if statistics == [] then 0
    else Carried(statistics[|statistics| - 1], datapoints, CarriedAll(statistics[..|statistics| - 1], datapoints))
  }

  /** The samples of the s-th statistic. */
  function SamplesOf(statistics: seq<string>, datapoints: seq<Datapoint>, s: nat): seq<Sample>
    requires s < |statistics|
  {
    Samples(statistics[s], datapoints, CarriedAll(statistics[..s], datapoints))
  }

  /** One series for each statistic, over the datapoints put in order of time: the points that
      carry data are the statistic's samples in that order, and if no two datapoints have the same
      time, the times of a series strictly increase, by at most a period. */
  method ParseResponse(response: seq<Datapoint>, statistics: seq<string>, period: int)
    returns (series: seq<seq<Point>>, datapoints: seq<Datapoint>)
    requires period > 0
    ensures Sorted(datapoints) && multiset(datapoints) == multiset(response)
    ensures |series| == |statistics|
    ensures forall s :: 0 <= s < |series| ==>
      series[s] == Points(SamplesOf(statistics, datapoints, s), period)
      && Data(series[s]) == SamplesOf(statistics, datapoints, s)
      && (DistinctTimes(datapoints) ==> Steady(series[s], period))
    ensures forall s :: 0 <= s < |series| ==> SeriesShows(statistics, datapoints, series, s)
  {
    datapoints := SortByTime(response);
    hide Data, Points, Samples, Steady, Carried;
    series := [];
    var value := 0;
    for s := 0 to |statistics|
      invariant |series| == s && value == CarriedAll(statistics[..s], datapoints)
      invariant forall r :: 0 <= r < s ==> series[r] == Points(SamplesOf(statistics, datapoints, r), period)
    {
      CarriedAllStep(statistics, datapoints, s);
      hide CarriedAll;
      var points;
      points, value := FillSeries(datapoints, statistics[s], period, value);
      series := series + [points];
    }
    forall s | 0 <= s < |series|
      ensures Data(series[s]) == SamplesOf(statistics, datapoints, s) &&
        (DistinctTimes(datapoints) ==> Steady(series[s], period))
    {
      var samples := SamplesOf(statistics, datapoints, s);
      hide CarriedAll;
      DataKept(samples, period);
      if DistinctTimes(datapoints) {
        PointsSteady(samples, period);
      }
    }
    hide SamplesOf, SeriesShows;
    forall s | 0 <= s < |series| ensures SeriesShows(statistics, datapoints, series, s) {
      SamplesShow(statistics, datapoints, series, s);
    }
  }

  method SortByTime(response: seq<Datapoint>) returns (datapoints: seq<Datapoint>)
    ensures Sorted(datapoints) && multiset(datapoints) == multiset(response)
  {
    datapoints := [];
    for i := 0 to |response|
      invariant SortedFirst(datapoints, response, i)
    {
      hide SortedFirst;
      var k := PlaceOf(datapoints, response[i]);
      OneMore(datapoints, response, i, k);
      datapoints := datapoints[..k] + [response[i]] + datapoints[k..];
    }
    assert response[..|response|] == response;
  }

  /** Behind all that do not come later, as found from the end. */
  method PlaceOf(datapoints: seq<Datapoint>, d: Datapoint) returns (k: nat)
    ensures k <= |datapoints| && (k > 0 ==> datapoints[k - 1].timestamp <= d.timestamp)
    ensures forall j :: k <= j < |datapoints| ==> d.timestamp < datapoints[j].timestamp
  {
    k := |datapoints|;
    while k > 0 && d.timestamp < datapoints[k - 1].timestamp
      invariant 0 <= k <= |datapoints|
      invariant forall j :: k <= j < |datapoints| ==> d.timestamp < datapoints[j].timestamp
    {
      k := k - 1;
    }
  }

  /** The first i datapoints of the response, sorted. */
  predicate SortedFirst(datapoints: seq<Datapoint>, response: seq<Datapoint>, i: nat)
    requires i <= |response|
  {
    Sorted(datapoints) && multiset(datapoints) == multiset(response[..i])
  }

  lemma OneMore(ds: seq<Datapoint>, response: seq<Datapoint>, i: nat, k: nat)
    requires i < |response| && SortedFirst(ds, response, i) && k <= |ds|
    requires k > 0 ==> ds[k - 1].timestamp <= response[i].timestamp
    requires forall j :: k <= j < |ds| ==> response[i].timestamp < ds[j].timestamp
    ensures SortedFirst(ds[..k] + [response[i]] + ds[k..], response, i + 1)
  {
    InsertKeeps(ds, k, response[i]);
    hide Sorted;
    assert response[..i + 1] == response[..i] + [response[i]];
  }

  lemma InsertKeeps(ds: seq<Datapoint>, k: nat, d: Datapoint)
    requires Sorted(ds) && k <= |ds|
    requires k > 0 ==> ds[k - 1].timestamp <= d.timestamp
    requires forall j :: k <= j < |ds| ==> d.timestamp < ds[j].timestamp
    ensures var r := ds[..k] + [d] + ds[k..]; Sorted(r) && multiset(r) == multiset(ds) + multiset{d}
  {
    BelowFirst(ds, k, d);
    hide Sorted;
    assert ds == ds[..k] + ds[k..];
    InsertSorted(ds[..k], d, ds[k..]);
  }

  lemma BelowFirst(ds: seq<Datapoint>, k: nat, d: Datapoint)
    requires Sorted(ds) && k <= |ds| && (k > 0 ==> ds[k - 1].timestamp <= d.timestamp)
    ensures forall i :: 0 <= i < |ds[..k]| ==> ds[..k][i].timestamp <= d.timestamp
  {
  }

  lemma InsertSorted(a: seq<Datapoint>, d: Datapoint, b: seq<Datapoint>)
    requires Sorted(a + b)
    requires forall i :: 0 <= i < |a| ==> a[i].timestamp <= d.timestamp
    requires forall i :: 0 <= i < |b| ==> d.timestamp <= b[i].timestamp
    ensures Sorted(a + [d] + b)
  {
    var r, s := a + [d] + b, a + b;
    forall i, j | 0 <= i < j < |r| ensures r[i].timestamp <= r[j].timestamp {
      if i < |a| && j > |a| {
        assert r[i] == s[i] && r[j] == s[j - 1];
      } else if i < |a| && j < |a| {
        assert r[i] == s[i] && r[j] == s[j];
      } else if i > |a| {
        assert r[i] == s[i - 1] && r[j] == s[j - 1];
      }
    }
  }

  lemma CarriedAllStep(statistics: seq<string>, datapoints: seq<Datapoint>, s: nat)
    requires s < |statistics|
    ensures CarriedAll(statistics[..s + 1], datapoints)
      == Carried(statistics[s], datapoints, CarriedAll(statistics[..s], datapoints))
  {
    assert statistics[..s + 1][..s] == statistics[..s];
  }

  lemma SamplesStep(statistic: string, datapoints: seq<Datapoint>, i: nat, value: int)
    requires i < |datapoints|
    ensures Carried(statistic, datapoints[..i + 1], value)
      == Reading(statistic, datapoints[i], Carried(statistic, datapoints[..i], value))
    ensures Samples(statistic, datapoints[..i + 1], value)
         == Samples(statistic, datapoints[..i], value)
           + [Sample(datapoints[i].timestamp, Carried(statistic, datapoints[..i + 1], value))]
  {
    assert datapoints[..i + 1][..i] == datapoints[..i];
  }

  method FillSeries(datapoints: seq<Datapoint>, statistic: string, period: int, before: int)
    returns (points: seq<Point>, value: int)
    requires period > 0
    ensures points == Points(Samples(statistic, datapoints, before), period)
    ensures value == Carried(statistic, datapoints, before)
  {
    points, value := [], before;
    var last: Option<int> := None;
    hide Gap;
    for i := 0 to |datapoints|
      invariant points == Points(Samples(statistic, datapoints[..i], before), period)
      invariant value == Carried(statistic, datapoints[..i], before)
      invariant last == if i == 0 then None else Some(datapoints[i - 1].timestamp)
    {
      SamplesStep(statistic, datapoints, i, before);
      hide Samples, Reading, Carried;
      ghost var samples := Samples(statistic, datapoints[..i + 1], before);
      assert samples[..i] == Samples(statistic, datapoints[..i], before);
      value := Reading(statistic, datapoints[i], value);
      points := AddPoint(points, last, datapoints[i].timestamp, value, period, samples);
      last := Some(datapoints[i].timestamp);
      hide Round;
    }
    assert datapoints[..|datapoints|] == datapoints;
  }

  /** One round: the nulls of the gap before a sample, and the sample. */
  method AddPoint(before: seq<Point>, last: Option<int>, timestamp: int, value: int, period: int,
    ghost samples: seq<Sample>) returns (points: seq<Point>)
    requires period > 0 && samples != [] && samples[|samples| - 1] == Sample(timestamp, value)
    requires last == if |samples| == 1 then None else Some(samples[|samples| - 2].timestamp)
    ensures points == before + Round(samples, period)
  {
    hide Gap;
    points := before;
    if last.Some? {
      points := FillGap(points, last.value, timestamp, period);
    }
    points := points + [Point(Some(value), timestamp * 1000)];
  }

  /** The inner loop: a null at every period missed. */
  method FillGap(before: seq<Point>, last: int, timestamp: int, period: int) returns (points: seq<Point>)
    requires period > 0
    ensures points == before + Gap(last + period, timestamp, period)
  {
    points := before;
    var next := last + period;
    while timestamp > next
      invariant before + Gap(last + period, timestamp, period) == points + Gap(next, timestamp, period)
      decreases timestamp - next
    {
      points := points + [Point(None, next * 1000)];
      next := next + period;
    }
  }

  lemma {:induction false} SampleAt(statistic: string, datapoints: seq<Datapoint>, value: int, i: nat)
    requires i < |datapoints|
    ensures Samples(statistic, datapoints, value)[i].value == Carried(statistic, datapoints[..i + 1], value)
  {
    var n := |datapoints| - 1;
    if i < n {
      SampleAt(statistic, datapoints[..n], value, i);
      assert datapoints[..n][..i + 1] == datapoints[..i + 1];
    } else {
      assert datapoints[..i + 1] == datapoints;
    }
  }

  /** The value carried over is forgotten at the first datapoint that has the statistic. */
  lemma {:induction false} CarriedFrom(statistic: string, datapoints: seq<Datapoint>, v: int, w: int)
    ensures if exists j :: 0 <= j < |datapoints| && Shows(statistic, datapoints[j])
            then Carried(statistic, datapoints, v) == Carried(statistic, datapoints, w)
            else Carried(statistic, datapoints, v) == v
  {
    if datapoints != [] {
      var n := |datapoints| - 1;
      CarriedFrom(statistic, datapoints[..n], v, w);
      ReadingShows(statistic, datapoints[n]);
      if j :| 0 <= j < n && Shows(statistic, datapoints[j]) {
        assert Shows(statistic, datapoints[..n][j]);
      }
      if j :| 0 <= j < n && Shows(statistic, datapoints[..n][j]) {
        assert Shows(statistic, datapoints[j]);
      }
    }
  }

  lemma ReadingShows(statistic: string, d: Datapoint)
    ensures forall v, w :: if Shows(statistic, d) then Reading(statistic, d, v) == Reading(statistic, d, w)
      else Reading(statistic, d, v) == v
  {
  }

  /** Exactly when a sample is the response's own: it does not depend on what the statistic before
      left over if and only if the loop has met a datapoint that has the statistic. */
  lemma OwnSamples(statistic: string, datapoints: seq<Datapoint>, i: nat)
    requires i < |datapoints|
    ensures (forall v, w :: Samples(statistic, datapoints, v)[i].value == Samples(statistic, datapoints, w)[i].value)
       <==> exists j :: 0 <= j <= i && Shows(statistic, datapoints[j])
  {
    var met := datapoints[..i + 1];
    forall v ensures Samples(statistic, datapoints, v)[i].value == Carried(statistic, met, v) {
      SampleAt(statistic, datapoints, v, i);
    }
    forall v, w ensures if exists j :: 0 <= j < |met| && Shows(statistic, met[j])
                        then Carried(statistic, met, v) == Carried(statistic, met, w)
                        else Carried(statistic, met, v) == v
    {
      CarriedFrom(statistic, met, v, w);
    }
    assert forall j :: 0 <= j <= i ==> met[j] == datapoints[j];
    if exists j :: 0 <= j <= i && Shows(statistic, datapoints[j]) {
      var j :| 0 <= j <= i && Shows(statistic, datapoints[j]);
      assert Shows(statistic, met[j]);
    } else {
      assert Samples(statistic, datapoints, 0)[i].value != Samples(statistic, datapoints, 1)[i].value;
    }
  }

  /** Until then it shows the last value of the statistic before it; so does a statistic the
      response lacks, throughout. */
  lemma AbsentStatistic(statistic: string, datapoints: seq<Datapoint>, value: int, i: nat)
    requires i < |datapoints| && forall j :: 0 <= j <= i ==> !Shows(statistic, datapoints[j])
    ensures Samples(statistic, datapoints, value)[i].value == value
    ensures (forall j :: 0 <= j < |datapoints| ==> !Shows(statistic, datapoints[j])) ==>
      Carried(statistic, datapoints, value) == value
  {
    var met := datapoints[..i + 1];
    SampleAt(statistic, datapoints, value, i);
    assert forall j :: 0 <= j <= i ==> met[j] == datapoints[j];
    CarriedFrom(statistic, met, value, value);
    CarriedFrom(statistic, datapoints, value, value);
  }
}
