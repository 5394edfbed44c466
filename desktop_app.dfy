/** The desktop front end: the app object holding the current day's doses, the saved days
    and the day counter, with its graph update (no bound check), dose removal, day saving
    and day loading. */
module DesktopApp {
  import opened Wrappers
  import opened Clock
  import opened Days
  import opened Effect

  /** A dose time as self.saved_days holds it: Text(t) is the string strftime("%H:%M")
      writes for t, which save_day stores; Parsed(t) is the datetime build reads back from
      the file. */
  datatype TimeValue = Text(time: TimeOfDay) | Parsed(time: TimeOfDay)

  datatype Entry = Entry(amount: real, time: TimeValue)

  /** The data file doses.json: absent, holding the given days, or broken, when json.dump
      stopped with an error after opening it for writing, so that its content is not a complete
      JSON document. */
  datatype DataFile = NoFile | Written(days: map<string, seq<SavedDose>>) | Broken

  /** The loop of update_graph on a given grid: every profile sample of every dose adds
      perc * dose / 40 at its nearest grid point. */
  method ApplyDosesNearest(profile: seq<int>, g: Grid, doses: seq<Dose>) returns (values: seq<real>)
    requires g.size > 0
    ensures values == EffectValues(profile, g, doses)
  {
    var combined := new real[g.size](_ => 0.0);
    for j := 0 to |doses|
      invariant forall p :: 0 <= p < g.size ==> combined[p] == SeriesAt(profile, g, doses[..j], p)
    {
      var d := doses[j];
      for i := 0 to |profile|
        invariant forall p :: 0 <= p < g.size ==>
          combined[p] == SeriesAt(profile, g, doses[..j], p) + DoseAt(profile, g, d, i, p)
      {
        var pos := Nearest(g, SampleTime(d.time, i));
        combined[pos] := combined[pos] + Contribution(profile, d, i);
      }
      assert doses[..j + 1][..j] == doses[..j];
    }
    assert doses[..|doses|] == doses;
    values := combined[..];
  }

  /** Index of the first occurrence of x in s. */
  function FirstIndex<T(==)>(s: seq<T>, x: T): (i: nat)
    requires x in s
    ensures i < |s| && s[i] == x && forall j :: 0 <= j < i ==> s[j] != x
  {
    if s[0] == x then 0 else 1 + FirstIndex(s[1..], x)
  }

  /** list.remove(x) on a list that holds x; no change otherwise. */
  function RemoveFirst<T(==)>(s: seq<T>, x: T): seq<T> {
    if x in s then s[..FirstIndex(s, x)] + s[FirstIndex(s, x) + 1..] else s
  }

  /** list.remove(x) as a search for the first position holding x followed by the removal
      of that element; no change when x is absent. */
  method DropFirst<T(==)>(s: seq<T>, x: T) returns (r: seq<T>)
    ensures r == RemoveFirst(s, x)
  {
    var i := 0;
    while i < |s| && s[i] != x
      invariant i <= |s|
      invariant forall j :: 0 <= j < i ==> s[j] != x
    {
      i := i + 1;
    }
    if i < |s| {
      assert FirstIndex(s, x) == i;
      r := s[..i] + s[i + 1..];
    } else {
      r := s;
    }
  }

  /** Removing the first match takes exactly one copy of x out of the multiset. */
  lemma RemoveFirstOneCopy<T>(s: seq<T>, x: T)
    requires x in s
    ensures multiset(RemoveFirst(s, x)) == multiset(s) - multiset{x}
    ensures |RemoveFirst(s, x)| == |s| - 1
  {
    var i := FirstIndex(s, x);
    assert s == s[..i] + [x] + s[i + 1..];
    assert multiset(s) == multiset(s[..i]) + multiset{x} + multiset(s[i + 1..]);
  }

  /** The time of an entry as load_day rebuilds it: strptime of the stored text, or the
      datetime as it is. Either way it is the time the entry was made from. */
  function EntryTime(v: TimeValue): (t: TimeOfDay)
    ensures t == v.time
  {
    if v.Text? then
      ParseFormat(v.time);
      ParseHHMM(FormatHHMM(v.time)).value
    else v.time
  }

  /** The doses load_day rebuilds from a saved day. */
  function ToDoses(entries: seq<Entry>): (ds: seq<Dose>)
    ensures |ds| == |entries|
  {
    seq(|entries|, i requires 0 <= i < |entries| => Dose(entries[i].amount, EntryTime(entries[i].time)))
  }

  /** [(dose, dt.strftime("%H:%M")) for dose, dt in self.doses] */
  function FormatEntries(ds: seq<Dose>): (entries: seq<Entry>)
    ensures |entries| == |ds|
  {
    seq(|ds|, i requires 0 <= i < |ds| => Entry(ds[i].amount, Text(ds[i].time)))
  }

  /** Loading a day that save_day stored gives back the doses that were saved, in order. */
  lemma SaveLoadRoundTrip(ds: seq<Dose>)
    ensures ToDoses(FormatEntries(ds)) == ds
  {
    forall i | 0 <= i < |ds|
      ensures ToDoses(FormatEntries(ds))[i] == ds[i]
    {
    }
  }

  // ---------------------------------------------------------------------------------------
  // The data file.
  // ---------------------------------------------------------------------------------------

  predicate StoredTimesParse(stored: map<string, seq<SavedDose>>) {
    forall k, i :: k in stored && 0 <= i < |stored[k]| ==> ParseHHMM(stored[k][i].time).Some?
  }

  function ParsedEntries(saved: seq<SavedDose>): (entries: seq<Entry>)
    requires forall i :: 0 <= i < |saved| ==> ParseHHMM(saved[i].time).Some?
    ensures |entries| == |saved|
  {
    seq(|saved|, i requires 0 <= i < |saved| => Entry(saved[i].amount, Parsed(ParseHHMM(saved[i].time).value)))
  }

  /** build: every stored time is turned into a datetime as the file is read. */
  function LoadDays(stored: map<string, seq<SavedDose>>): (days: map<string, seq<Entry>>)
    requires StoredTimesParse(stored)
    ensures days.Keys == stored.Keys
    ensures forall k :: k in days ==> |days[k]| == |stored[k]|
    ensures forall k, i :: k in days && 0 <= i < |days[k]| ==> days[k][i].time.Parsed?
  {
    map k | k in stored :: ParsedEntries(stored[k])
  }

  predicate HasParsed(days: map<string, seq<Entry>>) {
    exists k, i :: k in days && 0 <= i < |days[k]| && days[k][i].time.Parsed?
  }

  /** json.dump(self.saved_days) as written: it fails as soon as any entry holds a datetime
      rather than a string, and otherwise writes the stored strings. */
  function DumpDays(days: map<string, seq<Entry>>): (r: Option<map<string, seq<SavedDose>>>)
  {
    if HasParsed(days) then None else Some(DumpDaysFixed(days))
  }

  /** Once a day with doses has been read from the file, the next save_day cannot write the
      file: whatever the current day then holds, the dump fails. */
  lemma ReloadedDayBlocksDump(stored: map<string, seq<SavedDose>>, k: string, name: string, entries: seq<Entry>)
    requires StoredTimesParse(stored) && k in stored && |stored[k]| > 0 && name != k
    ensures DumpDays(LoadDays(stored)[name := entries]).None?
  {
    var days: map<string, seq<Entry>> := LoadDays(stored)[name := entries];
    assert days[k][0].time.Parsed?;
  }

  /** Storing a day's doses as text never adds a datetime: when the saved days hold none,
      the next dump succeeds. */
  lemma StoringTextKeepsDumpable(days: map<string, seq<Entry>>, name: string, ds: seq<Dose>)
    requires !HasParsed(days)
    ensures !HasParsed(days[name := FormatEntries(ds)])
    ensures DumpDays(days[name := FormatEntries(ds)]).Some?
  {
    var stored: map<string, seq<Entry>> := days[name := FormatEntries(ds)];
    forall k: string, i: int | k in stored && 0 <= i < |stored[k]|
      ensures stored[k][i].time.Text?
    {
      if k != name {
        assert k in days && 0 <= i < |days[k]|;
      }
    }
  }

  function SavedEntries(entries: seq<Entry>): (saved: seq<SavedDose>)
    ensures |saved| == |entries|
  {
    seq(|entries|, i requires 0 <= i < |entries| => SavedDose(entries[i].amount, FormatHHMM(entries[i].time.time)))
  }

  /** The dump save_day evidently intends: every time written as "HH:MM", whichever form it
      is held in. */
  function DumpDaysFixed(days: map<string, seq<Entry>>): (stored: map<string, seq<SavedDose>>)
    ensures stored.Keys == days.Keys
  {
    map k | k in days :: SavedEntries(days[k])
  }

  /** Reading back the corrected dump gives every saved day the same amounts and times, in
      the same order. */
  lemma DumpLoadRoundTrip(days: map<string, seq<Entry>>)
    ensures StoredTimesParse(DumpDaysFixed(days))
    ensures var reloaded := LoadDays(DumpDaysFixed(days));
      reloaded.Keys == days.Keys && forall k :: k in days ==> ToDoses(reloaded[k]) == ToDoses(days[k])
  {
    var stored: map<string, seq<SavedDose>> := DumpDaysFixed(days);
    forall k: string, i: int | k in stored && 0 <= i < |stored[k]|
      ensures ParseHHMM(stored[k][i].time) == Some(days[k][i].time.time)
    {
      ParseFormat(days[k][i].time.time);
    }
    var reloaded := LoadDays(stored);
    forall k | k in days
      ensures ToDoses(reloaded[k]) == ToDoses(days[k])
    {
      forall i | 0 <= i < |days[k]|
        ensures ToDoses(reloaded[k])[i] == ToDoses(days[k])[i]
      {
      }
    }
  }

  // ---------------------------------------------------------------------------------------
  // Day numbering.
  // ---------------------------------------------------------------------------------------

  /** build: 1 when there are no saved days, else one more than the largest
      int(k.split(" ")[1]) over the keys. */
  method NextDayIndex(keys: set<string>) returns (idx: nat)
    requires forall k :: k in keys ==> IsDayKey(k)
    ensures keys == {} ==> idx == 1
    ensures keys != {} ==> exists k :: k in keys && idx == KeyIndex(k) + 1
    ensures forall k :: k in keys ==> KeyIndex(k) < idx
  {
    if keys == {} {
      return 1;
    }
    var k0 :| k0 in keys;
    var best := KeyIndex(k0);
    var rest := keys - {k0};
    while rest != {}
      invariant rest <= keys && k0 !in rest
      invariant forall k :: k in keys && k !in rest ==> KeyIndex(k) <= best
      invariant exists k :: k in keys && k !in rest && best == KeyIndex(k)
      decreases |rest|
    {
      var k :| k in rest;
      if KeyIndex(k) > best {
        best := KeyIndex(k);
      }
      rest := rest - {k};
    }
    idx := best + 1;
  }

  /** The current day has the name of the day counter and is a key, and no key is numbered
      above the counter. */
  predicate DaysNumbered(days: map<string, seq<Entry>>, index: nat, name: string) {
    && name == DayName(index) && name in days
    && (forall k :: k in days ==> IsDayKey(k) && KeyIndex(k) <= index)
  }

  /** Storing the current day n and opening day n + 1 keeps the days numbered, and the new
      name is not yet taken. */
  lemma NextDayKeepsNumbering(days: map<string, seq<Entry>>, name: string, entries: seq<Entry>, n: nat)
    requires DaysNumbered(days, n, name)
    ensures DayName(n + 1) !in days[name := entries]
    ensures DaysNumbered(days[name := entries][DayName(n + 1) := []], n + 1, DayName(n + 1))
  {
    OpenDay(days[name := entries], n + 1);
  }

  /** Opening day n, when every key is numbered below n, gives numbered days with a name
      that was not yet taken. */
  lemma OpenDay(days: map<string, seq<Entry>>, n: nat)
    requires forall k :: k in days ==> IsDayKey(k) && KeyIndex(k) < n
    ensures DayName(n) !in days
    ensures DaysNumbered(days[DayName(n) := []], n, DayName(n))
  {
    DayNameIndex(n);
    FreshDayName(days.Keys, n);
  }

  /** The app object of the desktop front end. */
  class SideBySideApp {
    /** The module-level effect_percent the app plots with. */
    const profile: seq<int>
    var doses: seq<Dose>
    var savedDays: map<string, seq<Entry>>
    var currentDayIndex: nat
    var currentDayName: string
    /** The plotted series; none while the graph area is cleared. */
    var graph: Option<Series>
    var file: DataFile

    /** The saved days are numbered up to the day counter, the current day among them, and
        the graph shows the current doses. */
    predicate Valid()
      reads this
    {
      DaysNumbered(savedDays, currentDayIndex, currentDayName) && graph == EffectSeries(profile, doses)
    }

    /** build: read the data file if there is one, then open a new empty day numbered one
        above every saved day. The source stops with an error on a file whose keys are not
        day names or whose times do not read as HH:MM. */
    constructor Build(stored: Option<map<string, seq<SavedDose>>>)
      requires stored.Some? ==> StoredTimesParse(stored.value) && forall k :: k in stored.value ==> IsDayKey(k)
      ensures Valid()
      ensures profile == EFFECT_PERCENT
      ensures doses == [] && graph == None
      ensures file == if stored.Some? then Written(stored.value) else NoFile
      ensures var loaded := if stored.Some? then LoadDays(stored.value) else map[];
        && currentDayName !in loaded
        && savedDays == loaded[currentDayName := []]
        && (loaded == map[] ==> currentDayIndex == 1)
        && (loaded != map[] ==> exists k :: k in loaded && currentDayIndex == KeyIndex(k) + 1)
        && (forall k :: k in loaded ==> KeyIndex(k) < currentDayIndex)
    {
      var loaded := if stored.Some? then LoadDays(stored.value) else map[];
      var idx := NextDayIndex(loaded.Keys);
      assert loaded == map[] <==> loaded.Keys == {};
      OpenDay(loaded, idx);
      profile := EFFECT_PERCENT;
      doses := [];
      savedDays := loaded[DayName(idx) := []];
      currentDayIndex := idx;
      currentDayName := DayName(idx);
      graph := None;
      file := if stored.Some? then Written(stored.value) else NoFile;
    }

    /** update_graph: clear the graph for no doses, else plot the combined effect. */
    method UpdateGraph()
      modifies this`graph
      ensures graph.None? <==> doses == []
      ensures graph == EffectSeries(profile, doses)
    {
      if doses == [] {
        graph := None;
        return;
      }
      var g := DoseGrid(profile, doses);
      var values := ApplyDosesNearest(profile, g, doses);
      graph := Some(Series(g.Timestamps(), values));
    }

    /** add_dose: a time that reads as HH:MM and an amount that reads as a number append one
        dose at the end and redraw; otherwise nothing changes. */
    method AddDose(timeText: string, amount: Option<real>) returns (ok: bool)
      requires Valid()
      modifies this`doses, this`graph
      ensures Valid()
      ensures ok <==> ParseHHMM(timeText).Some? && amount.Some?
      ensures ok ==> doses == old(doses) + [Dose(amount.value, ParseHHMM(timeText).value)]
      ensures !ok ==> doses == old(doses) && graph == old(graph)
    {
      var t := ParseHHMM(timeText);
      if t.None? || amount.None? {
        return false;
      }
      doses := doses + [Dose(amount.value, t.value)];
      UpdateGraph();
      ok := true;
    }

    /** The delete button of a dose row: the first equal dose, if any, leaves the list. */
    method DeleteDose(d: Dose)
      requires Valid()
      modifies this`doses, this`graph
      ensures Valid()
      ensures doses == RemoveFirst(old(doses), d)
    {
      var rest := DropFirst(doses, d);
      assert DaysNumbered(savedDays, currentDayIndex, currentDayName);
      doses := rest;
      UpdateGraph();
    }

    /** save_day: with no doses nothing happens. Otherwise the doses are stored, times as
        "HH:MM", under the current day, and the saved days are dumped to the file. When the
        dump succeeds (written), the counter moves on to a new empty day and the dose list and
        graph are cleared. When some saved entry still holds a datetime, json.dump raises
        after the file was opened for writing: the file is left broken and nothing after the
        dump happens. */
    method SaveDay() returns (written: bool)
      requires Valid()
      modifies this
      ensures Valid()
      ensures old(doses) == [] ==>
        !written && doses == old(doses) && savedDays == old(savedDays) && currentDayIndex == old(currentDayIndex)
        && currentDayName == old(currentDayName) && graph == old(graph) && file == old(file)
      ensures old(doses) != [] ==>
        var stored := old(savedDays)[old(currentDayName) := FormatEntries(old(doses))];
        && (written <==> DumpDays(stored).Some?)
        && (written ==>
          && savedDays == stored[currentDayName := []]
          && file == Written(DumpDays(stored).value)
          && currentDayIndex == old(currentDayIndex) + 1 && currentDayName == DayName(currentDayIndex)
          && currentDayName !in old(savedDays)
          && doses == [] && graph == None)
        && (!written ==>
          && savedDays == stored && file == Broken
          && currentDayIndex == old(currentDayIndex) && currentDayName == old(currentDayName)
          && doses == old(doses) && graph == old(graph))
    {
      if doses == [] {
        return false;
      }
      var stored := savedDays[currentDayName := FormatEntries(doses)];
      var dumped := DumpDays(stored);
      if dumped.None? {
        savedDays := stored;
        file := Broken;
        return false;
      }
      var nextIndex := currentDayIndex + 1;
      var next := DayName(nextIndex);
      var nextDays := stored[next := []];
      NextDayKeepsNumbering(savedDays, currentDayName, FormatEntries(doses), currentDayIndex);
      assert DaysNumbered(nextDays, nextIndex, next);
      savedDays := nextDays;
      file := Written(dumped.value);
      currentDayIndex := nextIndex;
      currentDayName := next;
      doses := [];
      graph := None;
      written := true;
    }

    /** load_day: the doses of the named day, rebuilt in order, become the dose list, and the
        graph is redrawn. The current day name stays as it was. */
    method LoadDay(dayName: string)
      requires Valid() && dayName in savedDays
      modifies this`doses, this`graph
      ensures Valid()
      ensures doses == ToDoses(savedDays[dayName])
    {
      var entries := savedDays[dayName];
      doses := [];
      for i := 0 to |entries|
        invariant doses == ToDoses(entries[..i])
      {
        var entry := entries[i];
        var doseTime: TimeOfDay;
        if entry.time.Text? {
          ParseFormat(entry.time.time);
          doseTime := ParseHHMM(FormatHHMM(entry.time.time)).value;
        } else {
          doseTime := entry.time.time;
        }
        assert entries[..i + 1] == entries[..i] + [entry];
        doses := doses + [Dose(entry.amount, doseTime)];
      }
      assert entries[..|entries|] == entries;
      UpdateGraph();
    }
  }
}
