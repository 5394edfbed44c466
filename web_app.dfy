/** The web front end: the saved_days store of the Flask app and its generate_graph, which
    accumulates the combined effect in place and stops a dose's samples at the grid end. */
module WebApp {
  import opened Wrappers
  import opened Decimal
  import opened Clock
  import opened Days
  import opened Effect
  import opened EffectProperties

  /** The loop of generate_graph on a given grid: for every dose, for every profile sample,
      stop at the first sample past the last grid point, else add perc * dose / 40 at the
      sample's nearest grid point. */
  method ApplyDosesClipped(profile: seq<int>, g: Grid, doses: seq<Dose>) returns (values: seq<real>)
    requires g.size > 0
    ensures values == ClippedEffectValues(profile, g, doses)
  {
    var combined := new real[g.size](_ => 0.0);
    var j := 0;
    while j < |doses|
      invariant 0 <= j <= |doses|
      invariant forall p :: 0 <= p < g.size ==> combined[p] == ClippedSeriesAt(profile, g, doses[..j], p)
    {
      var d := doses[j];
      var i := 0;
      while i < |profile|
        invariant 0 <= i <= |profile|
        invariant forall p :: 0 <= p < g.size ==>
          combined[p] == ClippedSeriesAt(profile, g, doses[..j], p) + ClippedDoseAt(profile, g, d, i, p)
      {
        var effectTime := SampleTime(d.time, i);
        if effectTime > g.Last() {
          forall p | 0 <= p < g.size
            ensures ClippedDoseAt(profile, g, d, |profile|, p) == ClippedDoseAt(profile, g, d, i, p)
          {
            ClippedStopsAtEnd(profile, g, d, i, |profile|, p);
          }
          break;
        }
        var pos := Nearest(g, effectTime);
        combined[pos] := combined[pos] + Contribution(profile, d, i);
        i := i + 1;
      }
      assert doses[..j + 1][..j] == doses[..j];
      j := j + 1;
    }
    assert doses[..j] == doses;
    values := combined[..];
  }

  /** generate_graph: no series for no doses; otherwise the grid from the earliest dose to the
      latest dose plus effect_duration, with the accumulated values. */
  method GenerateGraph(doses: seq<Dose>) returns (r: Option<Series>)
    ensures r.None? <==> doses == []
    ensures r == ClippedEffectSeries(EFFECT_PERCENT, doses)
    ensures r == EffectSeries(EFFECT_PERCENT, doses)
  {
    ImplementationsAgree(EFFECT_PERCENT, doses);
    if doses == [] {
      return None;
    }
    var g := DoseGrid(EFFECT_PERCENT, doses);
    var values := ApplyDosesClipped(EFFECT_PERCENT, g, doses);
    r := Some(Series(g.Timestamps(), values));
  }

  /** [d for d in entries if not (d[0] == amount and d[1] == time)]. */
  function RemoveMatching(entries: seq<SavedDose>, target: SavedDose): (r: seq<SavedDose>)
    ensures multiset(r) == multiset(entries)[target := 0]
    ensures forall e :: e in r <==> e in entries && e != target
    decreases |entries|
  {
    if entries == [] then []
    else
      var init := entries[..|entries| - 1];
      var last := entries[|entries| - 1];
      assert entries == init + [last];
      RemoveMatching(init, target) + (if last == target then [] else [last])
  }

  /** Filtering works piece by piece, so the kept entries stay in their order. */
  lemma {:induction false} RemoveMatchingConcat(a: seq<SavedDose>, b: seq<SavedDose>, target: SavedDose)
    ensures RemoveMatching(a + b, target) == RemoveMatching(a, target) + RemoveMatching(b, target)
    decreases |b|
  {
    if b == [] {
      assert a + b == a;
    } else {
      var init := b[..|b| - 1];
      assert (a + b)[..|a + b| - 1] == a + init;
      assert (a + b)[|a + b| - 1] == b[|b| - 1];
      RemoveMatchingConcat(a, init, target);
    }
  }

  /** Deleting again deletes nothing more. */
  lemma RemoveMatchingIdempotent(entries: seq<SavedDose>, target: SavedDose)
    ensures RemoveMatching(RemoveMatching(entries, target), target) == RemoveMatching(entries, target)
  {
    NothingToRemove(RemoveMatching(entries, target), target);
  }

  lemma {:induction false} NothingToRemove(entries: seq<SavedDose>, target: SavedDose)
    requires target !in entries
    ensures RemoveMatching(entries, target) == entries
    decreases |entries|
  {
    if entries != [] {
      var init := entries[..|entries| - 1];
      assert entries == init + [entries[|entries| - 1]];
      NothingToRemove(init, target);
    }
  }

  /** The module-level saved_days dictionary and the data file save_data writes. */
  class DayStore {
    var savedDays: map<string, seq<SavedDose>>
    /** The content of the data file; none while no file exists. */
    var file: Option<map<string, seq<SavedDose>>>

    /** Loads the data file, or starts with an empty "Day 1" when there is none; nothing is
        written until the first save_data. */
    constructor (stored: Option<map<string, seq<SavedDose>>>)
      ensures stored.Some? ==> savedDays == stored.value
      ensures stored.None? ==> savedDays == map["Day 1" := []]
      ensures file == stored
    {
      if stored.Some? {
        savedDays := stored.value;
      } else {
        savedDays := map["Day 1" := []];
      }
      file := stored;
    }

    /** new_day: names the new day after the number of days plus one and stores it empty. */
    method NewDay() returns (name: string)
      modifies this
      ensures name == DayName(|old(savedDays)| + 1)
      ensures savedDays == old(savedDays)[name := []]
      ensures file == Some(savedDays)
    {
      var nextDayIndex := |savedDays| + 1;
      name := DayName(nextDayIndex);
      savedDays := savedDays[name := []];
      file := Some(savedDays);
    }

    /** add_dose: a dose whose amount is a number and whose time reads as HH:MM is appended to
        the named day; a missing day or a malformed field changes nothing. */
    method AddDose(day: string, amount: Option<real>, timeText: string) returns (ok: bool)
      modifies this
      ensures ok <==> day in old(savedDays) && amount.Some? && ParseHHMM(timeText).Some?
      ensures ok ==> savedDays == old(savedDays)[day := old(savedDays)[day] + [SavedDose(amount.value, timeText)]]
      ensures ok ==> file == Some(savedDays)
      ensures !ok ==> savedDays == old(savedDays) && file == old(file)
    {
      if amount.None? || ParseHHMM(timeText).None? || day !in savedDays {
        return false;
      }
      savedDays := savedDays[day := savedDays[day] + [SavedDose(amount.value, timeText)]];
      file := Some(savedDays);
      ok := true;
    }

    /** delete_dose: every entry of the named day equal to (amount, time) is dropped. */
    method DeleteDose(day: string, amount: Option<real>, timeText: string) returns (ok: bool)
      modifies this
      ensures ok <==> day in old(savedDays) && amount.Some?
      ensures ok ==> savedDays == old(savedDays)[day := RemoveMatching(old(savedDays)[day], SavedDose(amount.value, timeText))]
      ensures ok ==> file == Some(savedDays)
      ensures !ok ==> savedDays == old(savedDays) && file == old(file)
    {
      if amount.None? || day !in savedDays {
        return false;
      }
      savedDays := savedDays[day := RemoveMatching(savedDays[day], SavedDose(amount.value, timeText))];
      file := Some(savedDays);
      ok := true;
    }
  }

  /** The keys are exactly "Day 1" .. "Day n". */
  predicate NumberedFromOne(keys: set<string>) {
    (forall k :: k in keys ==> IsDayKey(k) && 1 <= KeyIndex(k) <= |keys|)
  }

  /** When the days are numbered 1 .. n, the name new_day picks is not yet taken. */
  lemma WebNewDayFresh(keys: set<string>)
    requires NumberedFromOne(keys)
    ensures DayName(|keys| + 1) !in keys
  {
    FreshDayName(keys, |keys| + 1);
  }

  /** With a gap in the numbering the name new_day picks can be an existing day, whose doses
      the new empty day then replaces. */
  lemma WebNewDayCanOverwrite()
    ensures var days := map[DayName(2) := [SavedDose(40.0, "08:00")]];
      DayName(|days| + 1) in days && days[DayName(|days| + 1) := []][DayName(2)] == []
  {
    var days := map[DayName(2) := [SavedDose(40.0, "08:00")]];
    assert |days.Keys| == 1;
  }
}
