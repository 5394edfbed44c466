/** Properties of the dose-effect aggregation. */
module EffectProperties {
  import opened Wrappers
  import opened Clock
  import opened Effect

  // ---------------------------------------------------------------------------------------
  // The grid covers every sample, so the bound check of the web version never fires.
  // ---------------------------------------------------------------------------------------

  /** The dose grid starts at the earliest dose, steps by 30 minutes and has
      (latest + effect_duration - earliest) / 30 + 1 points, the last of them no later than
      latest + effect_duration and less than a step before it. */
  lemma DoseGridShape(profile: seq<int>, ds: seq<Dose>)
    requires |ds| > 0
    ensures var g := DoseGrid(profile, ds);
      && g.start == EarliestMinute(ds)
      && g.size == (LatestMinute(ds) + EffectDuration(profile) - EarliestMinute(ds)) / 30 + 1
      && g.Last() <= LatestMinute(ds) + EffectDuration(profile) < g.Last() + 30
      && forall k :: 0 <= k < g.size ==> g.Timestamps()[k] == EarliestMinute(ds) + 30 * k
  {
  }

  /** Every profile sample of every dose lies strictly before the last point of the dose
      grid: the last sample is 540 minutes after its dose, the grid reaches past
      latest + 540 because effect_duration is 570. */
  lemma SamplesBeforeGridEnd(profile: seq<int>, ds: seq<Dose>, d: Dose, i: int)
    requires d in ds && 0 <= i < |profile|
    ensures SampleTime(d.time, i) < DoseGrid(profile, ds).Last()
  {
    var g := DoseGrid(profile, ds);
    assert g.Last() + 30 > LatestMinute(ds) + EffectDuration(profile);
    assert MinuteOfDay(d.time) <= LatestMinute(ds);
  }

  lemma {:induction false} ClippedDoseAgrees(profile: seq<int>, g: Grid, d: Dose, k: nat, p: int)
    requires g.size > 0 && k <= |profile|
    requires forall i :: 0 <= i < k ==> SampleTime(d.time, i) <= g.Last()
    ensures ClippedDoseAt(profile, g, d, k, p) == DoseAt(profile, g, d, k, p)
  {
    if k > 0 {
      ClippedDoseAgrees(profile, g, d, k - 1, p);
    }
  }

  /** On a grid that reaches every sample of every dose, dropping samples past the end
      changes nothing. */
  lemma {:induction false} ClippedSeriesAgrees(profile: seq<int>, g: Grid, ds: seq<Dose>, p: int)
    requires g.size > 0
    requires forall d, i :: d in ds && 0 <= i < |profile| ==> SampleTime(d.time, i) <= g.Last()
    ensures ClippedSeriesAt(profile, g, ds, p) == SeriesAt(profile, g, ds, p)
    decreases |ds|
  {
    if ds != [] {
      var init := ds[..|ds| - 1];
      assert forall d :: d in init ==> d in ds;
      ClippedSeriesAgrees(profile, g, init, p);
      ClippedDoseAgrees(profile, g, ds[|ds| - 1], |profile|, p);
    }
  }

  /** The web version (with its bound check) and the desktop version (without) plot the same
      series for every dose list. */
  lemma ImplementationsAgree(profile: seq<int>, ds: seq<Dose>)
    ensures ClippedEffectSeries(profile, ds) == EffectSeries(profile, ds)
  {
    if ds != [] {
      var g := DoseGrid(profile, ds);
      forall d, i | d in ds && 0 <= i < |profile|
        ensures SampleTime(d.time, i) <= g.Last()
      {
        SamplesBeforeGridEnd(profile, ds, d, i);
      }
      forall p | 0 <= p < g.size
        ensures ClippedEffectValues(profile, g, ds)[p] == EffectValues(profile, g, ds)[p]
      {
        ClippedSeriesAgrees(profile, g, ds, p);
      }
      assert ClippedEffectValues(profile, g, ds) == EffectValues(profile, g, ds);
    }
  }

  // ---------------------------------------------------------------------------------------
  // Samples that fall on grid points.
  // ---------------------------------------------------------------------------------------

  /** A time that is a grid point snaps to exactly that point. */
  lemma NearestOfPoint(g: Grid, k: nat)
    requires k < g.size
    ensures Nearest(g, g.Point(k)) == k
  {
    var r := Nearest(g, g.Point(k));
    NearestIsClosest(g, g.Point(k));
    assert Distance(g.Point(r), g.Point(k)) <= Distance(g.Point(k), g.Point(k));
  }

  /** A dose that sits o steps after the grid origin puts its sample i exactly on grid point
      o + i, so the first k samples put the profile, scaled, on points o .. o + k - 1. */
  lemma {:induction false} AlignedDose(profile: seq<int>, g: Grid, d: Dose, o: nat, k: nat, p: int)
    requires MinuteOfDay(d.time) == g.Point(o)
    requires k <= |profile| && o + k <= g.size && g.size > 0
    ensures DoseAt(profile, g, d, k, p) == if o <= p < o + k then Contribution(profile, d, p - o) else 0.0
  {
    if k > 0 {
      AlignedDose(profile, g, d, o, k - 1, p);
      assert SampleTime(d.time, k - 1) == g.Point(o + k - 1);
      NearestOfPoint(g, o + k - 1);
    }
  }

  /** The profile of dose d shifted to its own grid offset and scaled by its amount. */
  function ShiftedProfile(profile: seq<int>, g: Grid, d: Dose, p: int): real {
    var o := (MinuteOfDay(d.time) - g.start) / 30;
    if o <= p < o + |profile| then Contribution(profile, d, p - o) else 0.0
  }

  /** The pointwise sum of the shifted, scaled profiles of the doses. */
  function ShiftedSum(profile: seq<int>, g: Grid, ds: seq<Dose>, p: int): real
    decreases |ds|
  {
    if ds == [] then 0.0 else ShiftedSum(profile, g, ds[..|ds| - 1], p) + ShiftedProfile(profile, g, ds[|ds| - 1], p)
  }

  predicate AlignedTo(profile: seq<int>, g: Grid, d: Dose) {
    MinuteOfDay(d.time) >= g.start && (MinuteOfDay(d.time) - g.start) % 30 == 0
    && (MinuteOfDay(d.time) - g.start) / 30 + |profile| <= g.size
  }

  predicate AllAlignedTo(profile: seq<int>, g: Grid, ds: seq<Dose>) {
    forall d :: d in ds ==> AlignedTo(profile, g, d)
  }

  /** An aligned dose contributes exactly its shifted, scaled profile. */
  lemma AlignedDoseShifted(profile: seq<int>, g: Grid, d: Dose, p: int)
    requires g.size > 0 && AlignedTo(profile, g, d)
    ensures DoseAt(profile, g, d, |profile|, p) == ShiftedProfile(profile, g, d, p)
  {
    var off := MinuteOfDay(d.time) - g.start;
    var o := off / 30;
    assert off == 30 * o + off % 30;
    assert MinuteOfDay(d.time) == g.Point(o);
    AlignedDose(profile, g, d, o, |profile|, p);
  }

  lemma {:induction false} AlignedSeries(profile: seq<int>, g: Grid, ds: seq<Dose>, p: int)
    requires g.size > 0 && AllAlignedTo(profile, g, ds)
    ensures SeriesAt(profile, g, ds, p) == ShiftedSum(profile, g, ds, p)
    decreases |ds|
  {
    if ds != [] {
      var init := ds[..|ds| - 1];
      assert forall e :: e in init ==> e in ds;
      AlignedSeries(profile, g, init, p);
      AlignedDoseShifted(profile, g, ds[|ds| - 1], p);
    }
  }

  /** A time a whole number of steps after start, and no later than latest, is followed by
      n more steps that end within the grid from start to latest + dur. */
  lemma StepsWithin(t: int, start: int, latest: int, n: nat, dur: int)
    requires start <= t <= latest && (t - start) % 30 == 0 && dur == n * 30
    ensures (t - start) / 30 + n <= (latest + dur - start) / 30
  {
    assert t - start == 30 * ((t - start) / 30);
    assert latest + dur - start == 30 * ((t - start) / 30 + n) + (latest - t);
  }

  /** Doses a whole number of steps after the earliest one are aligned to their own grid. */
  lemma AllAligned(profile: seq<int>, ds: seq<Dose>)
    requires |ds| > 0
    requires forall d :: d in ds ==> (MinuteOfDay(d.time) - EarliestMinute(ds)) % 30 == 0
    ensures AllAlignedTo(profile, DoseGrid(profile, ds), ds)
  {
    var g := DoseGrid(profile, ds);
    DoseGridShape(profile, ds);
    forall d | d in ds
      ensures AlignedTo(profile, g, d)
    {
      StepsWithin(MinuteOfDay(d.time), EarliestMinute(ds), LatestMinute(ds), |profile|, EffectDuration(profile));
    }
  }

  /** When every dose lies a whole number of 30-minute steps after the earliest one, each
      point of the plotted series is the sum of the doses' shifted, scaled profiles. */
  lemma AlignedDosesOnOwnGrid(profile: seq<int>, ds: seq<Dose>)
    requires |ds| > 0
    requires forall d :: d in ds ==> (MinuteOfDay(d.time) - EarliestMinute(ds)) % 30 == 0
    ensures forall p :: 0 <= p < DoseGrid(profile, ds).size ==> EffectSeries(profile, ds).value.values[p] == ShiftedSum(profile, DoseGrid(profile, ds), ds, p)
  {
    AllAligned(profile, ds);
    forall p | 0 <= p < DoseGrid(profile, ds).size
      ensures EffectSeries(profile, ds).value.values[p] == ShiftedSum(profile, DoseGrid(profile, ds), ds, p)
    {
      AlignedPoint(profile, ds, p);
    }
  }

  /** One point of AlignedDosesOnOwnGrid. */
  lemma AlignedPoint(profile: seq<int>, ds: seq<Dose>, p: nat)
    requires |ds| > 0 && p < DoseGrid(profile, ds).size
    requires AllAlignedTo(profile, DoseGrid(profile, ds), ds)
    ensures EffectSeries(profile, ds).value.values[p] == ShiftedSum(profile, DoseGrid(profile, ds), ds, p)
  {
    AlignedSeries(profile, DoseGrid(profile, ds), ds, p);
    PlottedValue(profile, ds, p);
  }

  /** The plotted value at grid point p is the desktop sum there. */
  lemma PlottedValue(profile: seq<int>, ds: seq<Dose>, p: nat)
    requires |ds| > 0 && p < DoseGrid(profile, ds).size
    ensures |EffectSeries(profile, ds).value.values| == DoseGrid(profile, ds).size
    ensures EffectSeries(profile, ds).value.values[p] == SeriesAt(profile, DoseGrid(profile, ds), ds, p)
  {
  }

  /** A single 40 mg dose gives 20 points from the dose time on: the profile as written,
      then one point of 0 at 570 minutes. */
  lemma SingleReferenceDose(t: TimeOfDay)
    ensures var s := EffectSeries(EFFECT_PERCENT, [Dose(40.0, t)]).value;
      && |s.times| == 20 && s.times[0] == MinuteOfDay(t)
      && s.values == seq(19, i requires 0 <= i < 19 => EFFECT_PERCENT[i] as real) + [0.0]
  {
    var d := Dose(40.0, t);
    var g := DoseGrid(EFFECT_PERCENT, [d]);
    assert g == Grid(MinuteOfDay(t), 20);
    var expected := seq(19, i requires 0 <= i < 19 => EFFECT_PERCENT[i] as real) + [0.0];
    var values := EffectValues(EFFECT_PERCENT, g, [d]);
    assert EffectSeries(EFFECT_PERCENT, [d]).value.values == values;
    forall p | 0 <= p < 20
      ensures values[p] == expected[p]
    {
      assert [d][..0] == [];
      assert values[p] == SeriesAt(EFFECT_PERCENT, g, [d], p);
      assert SeriesAt(EFFECT_PERCENT, g, [d], p) == SeriesAt(EFFECT_PERCENT, g, [], p) + DoseAt(EFFECT_PERCENT, g, d, |EFFECT_PERCENT|, p);
      AlignedDose(EFFECT_PERCENT, g, d, 0, |EFFECT_PERCENT|, p);
      if p < 19 {
        assert Contribution(EFFECT_PERCENT, d, p) == EFFECT_PERCENT[p] as real;
      }
    }
    assert values == expected;
  }

  // ---------------------------------------------------------------------------------------
  // The order of the doses does not matter.
  // ---------------------------------------------------------------------------------------

  lemma {:induction false} SeriesAtConcat(profile: seq<int>, g: Grid, a: seq<Dose>, b: seq<Dose>, p: int)
    requires g.size > 0
    ensures SeriesAt(profile, g, a + b, p) == SeriesAt(profile, g, a, p) + SeriesAt(profile, g, b, p)
    decreases |b|
  {
    if b == [] {
      assert a + b == a;
    } else {
      var init := b[..|b| - 1];
      assert (a + b)[..|a + b| - 1] == a + init;
      SeriesAtConcat(profile, g, a, init, p);
    }
  }

  lemma SeriesAtRemove(profile: seq<int>, g: Grid, s: seq<Dose>, i: nat, p: int)
    requires g.size > 0 && i < |s|
    ensures SeriesAt(profile, g, s, p) == SeriesAt(profile, g, s[..i] + s[i + 1..], p) + DoseAt(profile, g, s[i], |profile|, p)
  {
    assert s == s[..i] + [s[i]] + s[i + 1..];
    SeriesAtConcat(profile, g, s[..i] + [s[i]], s[i + 1..], p);
    SeriesAtConcat(profile, g, s[..i], [s[i]], p);
    SeriesAtConcat(profile, g, s[..i], s[i + 1..], p);
    assert [s[i]][..0] == [];
  }

  /** Taking out the element at i takes exactly one copy of it out of the multiset. */
  lemma MultisetWithout<T>(s: seq<T>, i: nat)
    requires i < |s|
    ensures multiset(s[..i] + s[i + 1..]) == multiset(s) - multiset{s[i]}
  {
    assert s == s[..i] + [s[i]] + s[i + 1..];
  }

  /** Reordering the doses leaves the value at every grid point unchanged. */
  lemma {:induction false} SeriesAtPermutation(profile: seq<int>, g: Grid, a: seq<Dose>, b: seq<Dose>, p: int)
    requires g.size > 0 && multiset(a) == multiset(b)
    ensures SeriesAt(profile, g, a, p) == SeriesAt(profile, g, b, p)
    decreases |a|
  {
    if a == [] {
      assert |b| == |multiset(b)| == 0;
    } else {
      var x := a[|a| - 1];
      assert x in multiset(b);
      var i :| 0 <= i < |b| && b[i] == x;
      MultisetWithout(a, |a| - 1);
      MultisetWithout(b, i);
      assert a[..|a| - 1] + a[|a|..] == a[..|a| - 1];
      SeriesAtPermutation(profile, g, a[..|a| - 1], b[..i] + b[i + 1..], p);
      SeriesAtRemove(profile, g, b, i, p);
    }
  }

  /** The times at which the doses are taken. */
  function DoseTimes(ds: seq<Dose>): set<TimeOfDay> {
    set d | d in ds :: d.time
  }

  lemma EarliestSameTimes(a: seq<Dose>, b: seq<Dose>)
    requires |a| > 0 && |b| > 0 && DoseTimes(a) == DoseTimes(b)
    ensures EarliestMinute(b) <= EarliestMinute(a)
  {
    var m := EarliestMinute(a);
    var da :| da in a && m == MinuteOfDay(da.time);
    assert da.time in DoseTimes(b);
    var e :| e in b && e.time == da.time;
  }

  lemma LatestSameTimes(a: seq<Dose>, b: seq<Dose>)
    requires |a| > 0 && |b| > 0 && DoseTimes(a) == DoseTimes(b)
    ensures LatestMinute(a) <= LatestMinute(b)
  {
    var m := LatestMinute(a);
    var da :| da in a && m == MinuteOfDay(da.time);
    assert da.time in DoseTimes(b);
    var e :| e in b && e.time == da.time;
  }

  /** Dose lists taken at the same set of times get the same grid. */
  lemma SameTimesSameGrid(profile: seq<int>, a: seq<Dose>, b: seq<Dose>)
    requires |a| > 0 && |b| > 0 && DoseTimes(a) == DoseTimes(b)
    ensures DoseGrid(profile, a) == DoseGrid(profile, b)
  {
    EarliestSameTimes(a, b);
    EarliestSameTimes(b, a);
    LatestSameTimes(a, b);
    LatestSameTimes(b, a);
  }

  /** The plotted series depends only on the doses as a multiset, not on their order. */
  lemma OrderIndependent(profile: seq<int>, a: seq<Dose>, b: seq<Dose>)
    requires multiset(a) == multiset(b)
    ensures EffectSeries(profile, a) == EffectSeries(profile, b)
  {
    if a == [] {
      assert |b| == |multiset(b)| == 0;
    } else {
      assert |b| == |multiset(b)| == |a|;
      forall d | d in a ensures d in b {
        assert d in multiset(a);
      }
      forall e | e in b ensures e in a {
        assert e in multiset(b);
      }
      assert DoseTimes(a) == DoseTimes(b);
      SameTimesSameGrid(profile, a, b);
      var g := DoseGrid(profile, a);
      forall p | 0 <= p < g.size ensures EffectValues(profile, g, a)[p] == EffectValues(profile, g, b)[p] {
        SeriesAtPermutation(profile, g, a, b, p);
      }
      assert EffectValues(profile, g, a) == EffectValues(profile, g, b);
    }
  }

  // ---------------------------------------------------------------------------------------
  // Linear scaling in the amount.
  // ---------------------------------------------------------------------------------------

  /** c * x. Products of two computed quantities are written through this function, which
      keeps them apart from the arithmetic of the profile sums; a statement about Times(c, x)
      says exactly what it would say about c * x. */
  function Times(c: real, x: real): real {
    c * x
  }

  /** Dose d with its amount multiplied by c. */
  function ScaledDose(d: Dose, c: real): Dose {
    Dose(Times(c, d.amount), d.time)
  }

  /** Every amount multiplied by c, times unchanged. */
  function Scaled(ds: seq<Dose>, c: real): (r: seq<Dose>)
    ensures |r| == |ds| && forall k :: 0 <= k < |ds| ==> r[k] == ScaledDose(ds[k], c)
  {
    if ds == [] then [] else Scaled(ds[..|ds| - 1], c) + [ScaledDose(ds[|ds| - 1], c)]
  }

  /** The profile percentages a dose taken at time t puts on grid point p, before scaling
      by its amount. */
  function Weight(profile: seq<int>, g: Grid, t: TimeOfDay, k: nat, p: int): real
    requires g.size > 0 && k <= |profile|
  {
    if k == 0 then 0.0
    else Weight(profile, g, t, k - 1, p) + (if Nearest(g, SampleTime(t, k - 1)) == p then profile[k - 1] as real else 0.0)
  }

  /** One step of the factoring induction, on plain reals: adding a sample's share to the
      scaled weight so far is scaling the weight with the sample added. */
  lemma FactorStep(s: real, w: real, wk1: real)
    ensures Times(s, wk1) + w * s == Times(s, wk1 + w)
  {
  }

  /** What a dose adds to a grid point is its amount over 40 times its profile weight there. */
  lemma {:induction false} DoseAtFactor(profile: seq<int>, g: Grid, d: Dose, t: TimeOfDay, k: nat, p: int)
    requires g.size > 0 && k <= |profile| && t == d.time
    ensures DoseAt(profile, g, d, k, p) == Times(d.amount / 40.0, Weight(profile, g, t, k, p))
  {
    if k > 0 {
      DoseAtFactor(profile, g, d, t, k - 1, p);
      if Nearest(g, SampleTime(t, k - 1)) == p {
        var w := profile[k - 1] as real;
        assert DoseAt(profile, g, d, k, p) == DoseAt(profile, g, d, k - 1, p) + w * (d.amount / 40.0);
        assert Weight(profile, g, t, k, p) == Weight(profile, g, t, k - 1, p) + w;
        FactorStep(d.amount / 40.0, w, Weight(profile, g, t, k - 1, p));
      } else {
        assert DoseAt(profile, g, d, k, p) == DoseAt(profile, g, d, k - 1, p);
        assert Weight(profile, g, t, k, p) == Weight(profile, g, t, k - 1, p);
      }
    }
  }

  /** The scaling step on plain reals. */
  lemma ScaleFactor(c: real, a: real, w: real, x: real, y: real)
    requires x == Times(a / 40.0, w) && y == Times(Times(c, a) / 40.0, w)
    ensures y == Times(c, x)
  {
  }

  /** A dose of c times the amount at the same time adds c times as much to every point. */
  lemma DoseAtScaled(profile: seq<int>, g: Grid, d: Dose, c: real, p: int)
    requires g.size > 0
    ensures DoseAt(profile, g, ScaledDose(d, c), |profile|, p) == Times(c, DoseAt(profile, g, d, |profile|, p))
  {
    DoseAtFactor(profile, g, d, d.time, |profile|, p);
    DoseAtFactor(profile, g, ScaledDose(d, c), d.time, |profile|, p);
    ScaleFactor(c, d.amount, Weight(profile, g, d.time, |profile|, p),
      DoseAt(profile, g, d, |profile|, p), DoseAt(profile, g, ScaledDose(d, c), |profile|, p));
  }

  /** The sum step on plain reals. */
  lemma SumScaled(c: real, x1: real, x2: real, y1: real, y2: real, x: real, y: real)
    requires y1 == Times(c, x1) && y2 == Times(c, x2) && x == x1 + x2 && y == y1 + y2
    ensures y == Times(c, x)
  {
  }

  lemma {:induction false} SeriesAtScaled(profile: seq<int>, g: Grid, ds: seq<Dose>, c: real, p: int)
    requires g.size > 0
    ensures SeriesAt(profile, g, Scaled(ds, c), p) == Times(c, SeriesAt(profile, g, ds, p))
    decreases |ds|
  {
    if ds != [] {
      var init := ds[..|ds| - 1];
      var last := ds[|ds| - 1];
      assert Scaled(ds, c)[..|ds| - 1] == Scaled(init, c);
      SeriesAtScaled(profile, g, init, c, p);
      DoseAtScaled(profile, g, last, c, p);
      SumScaled(c, SeriesAt(profile, g, init, p), DoseAt(profile, g, last, |profile|, p),
        SeriesAt(profile, g, Scaled(init, c), p), DoseAt(profile, g, ScaledDose(last, c), |profile|, p),
        SeriesAt(profile, g, ds, p), SeriesAt(profile, g, Scaled(ds, c), p));
    }
  }

  /** Multiplying every amount by c keeps the timestamps and multiplies every value by c. */
  lemma ScalingLinear(profile: seq<int>, ds: seq<Dose>, c: real)
    requires |ds| > 0
    ensures EffectSeries(profile, Scaled(ds, c)).value.times == EffectSeries(profile, ds).value.times
    ensures forall p :: 0 <= p < |EffectSeries(profile, ds).value.values| ==>
      EffectSeries(profile, Scaled(ds, c)).value.values[p] == Times(c, EffectSeries(profile, ds).value.values[p])
  {
    ScaledSameTimes(ds, c);
    SameTimesSameGrid(profile, ds, Scaled(ds, c));
    ScaledValues(profile, DoseGrid(profile, ds), ds, c);
  }

  /** On a given grid, scaling every amount scales every value. */
  lemma ScaledValues(profile: seq<int>, g: Grid, ds: seq<Dose>, c: real)
    requires g.size > 0
    ensures forall p :: 0 <= p < g.size ==>
      EffectValues(profile, g, Scaled(ds, c))[p] == Times(c, EffectValues(profile, g, ds)[p])
  {
    forall p | 0 <= p < g.size
      ensures EffectValues(profile, g, Scaled(ds, c))[p] == Times(c, EffectValues(profile, g, ds)[p])
    {
      SeriesAtScaled(profile, g, ds, c, p);
    }
  }

  /** Scaling keeps every dose time. */
  lemma ScaledSameTimes(ds: seq<Dose>, c: real)
    ensures DoseTimes(Scaled(ds, c)) == DoseTimes(ds)
  {
    var sc := Scaled(ds, c);
    forall t | t in DoseTimes(ds) ensures t in DoseTimes(sc) {
      var d :| d in ds && d.time == t;
      var k :| 0 <= k < |ds| && ds[k] == d;
      assert sc[k] in sc;
    }
    forall t | t in DoseTimes(sc) ensures t in DoseTimes(ds) {
      var e :| e in sc && e.time == t;
      var k :| 0 <= k < |sc| && sc[k] == e;
      assert ds[k] in ds;
    }
  }

  /** A 0 mg dose adds nothing to any grid point. */
  lemma {:induction false} ZeroDoseAtNothing(profile: seq<int>, g: Grid, t: TimeOfDay, k: nat, p: int)
    requires g.size > 0 && k <= |profile|
    ensures DoseAt(profile, g, Dose(0.0, t), k, p) == 0.0
  {
    if k > 0 {
      ZeroDoseAtNothing(profile, g, t, k - 1, p);
    }
  }

  /** Adding a 0 mg dose leaves every value on a given grid unchanged. */
  lemma ZeroDoseAddsNothing(profile: seq<int>, g: Grid, ds: seq<Dose>, t: TimeOfDay, p: int)
    requires g.size > 0
    ensures SeriesAt(profile, g, ds + [Dose(0.0, t)], p) == SeriesAt(profile, g, ds, p)
  {
    assert (ds + [Dose(0.0, t)])[..|ds|] == ds;
    ZeroDoseAtNothing(profile, g, t, |profile|, p);
  }

  predicate NonNegative(profile: seq<int>) {
    forall i :: 0 <= i < |profile| ==> profile[i] >= 0
  }

  /** With no negative amounts and no negative profile entry, no grid value is negative. */
  lemma {:induction false} DoseAtNonNegative(profile: seq<int>, g: Grid, d: Dose, k: nat, p: int)
    requires g.size > 0 && k <= |profile| && d.amount >= 0.0
    requires NonNegative(profile)
    ensures DoseAt(profile, g, d, k, p) >= 0.0
  {
    if k > 0 {
      DoseAtNonNegative(profile, g, d, k - 1, p);
      ProductNonNegative(profile[k - 1] as real, d.amount / 40.0);
    }
  }

  lemma ProductNonNegative(x: real, y: real)
    requires x >= 0.0 && y >= 0.0
    ensures x * y >= 0.0
  {
  }

  lemma {:induction false} SeriesAtNonNegative(profile: seq<int>, g: Grid, ds: seq<Dose>, p: int)
    requires g.size > 0 && NonNegative(profile)
    requires forall d :: d in ds ==> d.amount >= 0.0
    ensures SeriesAt(profile, g, ds, p) >= 0.0
    decreases |ds|
  {
    if ds != [] {
      var init := ds[..|ds| - 1];
      assert forall d :: d in init ==> d in ds;
      SeriesAtNonNegative(profile, g, init, p);
      DoseAtNonNegative(profile, g, ds[|ds| - 1], |profile|, p);
    }
  }
}
