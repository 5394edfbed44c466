/** The dose-effect aggregation shared by both front ends: a fixed effect profile, the
    30-minute time grid, snapping a time to the nearest grid point, and the combined effect
    each grid point receives. Times are minutes since midnight of one reference day; times
    past midnight simply run on past 1440. */
module Effect {
  import opened Wrappers
  import opened Clock

  /** Percent of full effect of a 40 mg dose (the amount for which the profile holds as
      written; other amounts scale linearly), sampled every 30 minutes (time_step) after intake
      (effect_percent of both front ends). The aggregation below is stated for any profile;
      the front ends pass this one. */
  const EFFECT_PERCENT: seq<int> := [0, 0, 0, 50, 100, 100, 100, 100, 100, 100, 100, 100, 100, 100, 80, 60, 40, 20, 0]
  /** len(effect_percent) * time_step: for the fixed profile 570 minutes, one step past the
      last profile sample. */
  function EffectDuration(profile: seq<int>): int {
    |profile| * 30
  }

  datatype Dose = Dose(amount: real, time: TimeOfDay)

  /** A combined-effect series: grid timestamps and the value at each. */
  datatype Series = Series(times: seq<int>, values: seq<real>)

  /** The uniform index pd.date_range produces: size points start, start + 30, ... */
  datatype Grid = Grid(start: int, size: nat) {
    function Point(k: int): int {
      start + 30 * k
    }

    function Last(): int
      requires size > 0
    {
      Point(size - 1)
    }

    function Timestamps(): seq<int> {
      seq(size, k => Point(k))
    }
  }

  /** pd.date_range(start, end, freq="30min"): every 30-minute point from start that is not after end. */
  function DateRange(start: int, end: int): (g: Grid)
    requires start <= end
    ensures g.start == start && g.size > 0
    ensures g.Last() <= end < g.Last() + 30
  {
    Grid(start, (end - start) / 30 + 1)
  }

  function Distance(a: int, b: int): nat {
    if a <= b then b - a else a - b
  }

  /** index.get_indexer([t], method="nearest"): the grid point closest to t. Times before the
      grid snap to its first point, times after it to its last. Of two equally close points
      the later one is chosen (an explicit choice of this model). */
  function Nearest(g: Grid, t: int): (k: nat)
    requires g.size > 0
    ensures k < g.size
  {
    if t <= g.start then 0
    else
      var k := (t - g.start + 15) / 30;
      if k < g.size then k else g.size - 1
  }

  /** The index Nearest picks is a closest grid point to t, and every later point is strictly
      farther away: of two equally close points the later one wins. */
  lemma NearestIsClosest(g: Grid, t: int)
    requires g.size > 0
    ensures forall j :: 0 <= j < g.size ==> Distance(g.Point(Nearest(g, t)), t) <= Distance(g.Point(j), t)
    ensures forall j :: Nearest(g, t) < j < g.size ==> Distance(g.Point(Nearest(g, t)), t) < Distance(g.Point(j), t)
  {
  }

  /** The time of profile sample i of dose d: dt + timedelta(minutes = i * time_step). */
  function SampleTime(t: TimeOfDay, i: int): int {
    MinuteOfDay(t) + 30 * i
  }

  /** perc * dose_scale with perc = profile[i] and dose_scale = dose / 40. */
  function Contribution(profile: seq<int>, d: Dose, i: nat): real
    requires i < |profile|
  {
    (profile[i] as real) * (d.amount / 40.0)
  }

  /** What the first k profile samples of d add to grid point p when each sample is snapped
      to its nearest grid point, with no bound check. */
  function DoseAt(profile: seq<int>, g: Grid, d: Dose, k: nat, p: int): real
    requires g.size > 0 && k <= |profile|
  {
    if k == 0 then 0.0
    else
      DoseAt(profile, g, d, k - 1, p)
      + (if Nearest(g, SampleTime(d.time, k - 1)) == p then Contribution(profile, d, k - 1) else 0.0)
  }

  /** What the doses ds together add to grid point p, with no bound check. */
  function SeriesAt(profile: seq<int>, g: Grid, ds: seq<Dose>, p: int): real
    requires g.size > 0
    decreases |ds|
  {
    if ds == [] then 0.0
    else SeriesAt(profile, g, ds[..|ds| - 1], p) + DoseAt(profile, g, ds[|ds| - 1], |profile|, p)
  }

  /** As DoseAt, but samples later than the grid's last point are dropped. Sample times grow
      with the index, so dropping them is the same as stopping at the first one. */
  function ClippedDoseAt(profile: seq<int>, g: Grid, d: Dose, k: nat, p: int): real
    requires g.size > 0 && k <= |profile|
  {
    if k == 0 then 0.0
    else
      ClippedDoseAt(profile, g, d, k - 1, p)
      + (if SampleTime(d.time, k - 1) <= g.Last() && Nearest(g, SampleTime(d.time, k - 1)) == p
         then Contribution(profile, d, k - 1) else 0.0)
  }

  function ClippedSeriesAt(profile: seq<int>, g: Grid, ds: seq<Dose>, p: int): real
    requires g.size > 0
    decreases |ds|
  {
    if ds == [] then 0.0
    else ClippedSeriesAt(profile, g, ds[..|ds| - 1], p) + ClippedDoseAt(profile, g, ds[|ds| - 1], |profile|, p)
  }

  function EffectValues(profile: seq<int>, g: Grid, ds: seq<Dose>): seq<real>
    requires g.size > 0
  {
    seq(g.size, p => SeriesAt(profile, g, ds, p))
  }

  function ClippedEffectValues(profile: seq<int>, g: Grid, ds: seq<Dose>): seq<real>
    requires g.size > 0
  {
    seq(g.size, p => ClippedSeriesAt(profile, g, ds, p))
  }

  /** min(dt for _, dt in doses), in minutes. */
  function EarliestMinute(ds: seq<Dose>): (m: int)
    requires |ds| > 0
    ensures forall d :: d in ds ==> m <= MinuteOfDay(d.time)
    ensures exists d :: d in ds && m == MinuteOfDay(d.time)
    decreases |ds|
  {
    if |ds| == 1 then
      assert forall d :: d in ds ==> d == ds[0];
      assert ds[0] in ds;
      MinuteOfDay(ds[0].time)
    else
      var init := ds[..|ds| - 1];
      var rest := EarliestMinute(init);
      var last := MinuteOfDay(ds[|ds| - 1].time);
      assert ds == init + [ds[|ds| - 1]];
      assert forall d :: d in ds ==> d in init || d == ds[|ds| - 1];
      assert forall d :: d in init ==> d in ds;
      assert ds[|ds| - 1] in ds;
      if last < rest then last else rest
  }

  /** max(dt for _, dt in doses), in minutes. */
  function LatestMinute(ds: seq<Dose>): (m: int)
    requires |ds| > 0
    ensures forall d :: d in ds ==> MinuteOfDay(d.time) <= m
    ensures exists d :: d in ds && m == MinuteOfDay(d.time)
    decreases |ds|
  {
    if |ds| == 1 then
      assert forall d :: d in ds ==> d == ds[0];
      assert ds[0] in ds;
      MinuteOfDay(ds[0].time)
    else
      var init := ds[..|ds| - 1];
      var rest := LatestMinute(init);
      var last := MinuteOfDay(ds[|ds| - 1].time);
      assert ds == init + [ds[|ds| - 1]];
      assert forall d :: d in ds ==> d in init || d == ds[|ds| - 1];
      assert forall d :: d in init ==> d in ds;
      assert ds[|ds| - 1] in ds;
      if last > rest then last else rest
  }

  /** The grid both front ends build: from the earliest dose to the latest dose plus effect_duration. */
  function DoseGrid(profile: seq<int>, ds: seq<Dose>): (g: Grid)
    requires |ds| > 0
    ensures g.size > 0
  {
    DateRange(EarliestMinute(ds), LatestMinute(ds) + EffectDuration(profile))
  }

  /** The series the desktop front end plots: none for no doses, else nearest-snapped sums. */
  function EffectSeries(profile: seq<int>, ds: seq<Dose>): Option<Series> {
    if ds == [] then None
    else Some(Series(DoseGrid(profile, ds).Timestamps(), EffectValues(profile, DoseGrid(profile, ds), ds)))
  }

  /** The series the web front end plots: as EffectSeries, but dropping samples past the grid. */
  function ClippedEffectSeries(profile: seq<int>, ds: seq<Dose>): Option<Series> {
    if ds == [] then None
    else Some(Series(DoseGrid(profile, ds).Timestamps(), ClippedEffectValues(profile, DoseGrid(profile, ds), ds)))
  }

  /** Once a sample lies past the grid, it and all later samples of the dose are dropped. */
  lemma {:induction false} ClippedStopsAtEnd(profile: seq<int>, g: Grid, d: Dose, i: nat, k: nat, p: int)
    requires g.size > 0 && i <= k <= |profile|
    requires SampleTime(d.time, i) > g.Last()
    ensures ClippedDoseAt(profile, g, d, k, p) == ClippedDoseAt(profile, g, d, i, p)
    decreases k
  {
    if k > i {
      ClippedStopsAtEnd(profile, g, d, i, k - 1, p);
    }
  }
}
