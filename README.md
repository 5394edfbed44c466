# Elvanse dose journal — a verified model of the dose-effect core

The journal keeps, per day, a list of doses `(amount in mg, time "HH:MM")`. From them it plots the
combined effect of the drug over the day. There are two front ends, and both compute the same thing:

- a Flask web app (`module1.py`) whose `generate_graph` function does the computation;
- a Kivy desktop app (`lisagraph.py`) whose `update_graph` method does it.

The computation takes a fixed 19-entry effect profile, sampled every 30 minutes after a 40 mg
dose. Every dose is laid onto a 30-minute grid:
- the grid runs from the earliest dose to the latest dose plus `effect_duration`;
- each profile sample goes to its nearest grid point, scaled by `amount / 40`.

The web version stops a dose's samples at the end of the grid. The desktop version has no such
check. Around this sit the day bookkeeping operations:
- appending and deleting doses;
- naming a new day;
- the desktop app's save-day / load-day cycle with its HH:MM conversion.

The model is written in Dafny as follows.

- `Clock`: time of day, and the strict HH:MM format and parse.
- `Decimal`: decimal digit strings.
- `Days`: day names "Day N" and the stored dose entries.
- `Effect`: the aggregation as functions of an arbitrary profile.
  - `Grid` and `DateRange` model `pd.date_range`.
  - `Nearest` models `get_indexer(..., method="nearest")`.
  - `SeriesAt` / `DoseAt` give the desktop sum.
  - `ClippedSeriesAt` / `ClippedDoseAt` give the web sum with its early `break`.
  - `EffectSeries` / `ClippedEffectSeries` give the plotted series.
  - The front ends pass `EFFECT_PERCENT`.
- `EffectProperties`: lemmas about the aggregation.
  - The grid always reaches past the last sample, so the `break` never fires and the two front
    ends agree.
  - Grid points snap exactly, so an aligned dose lays down its shifted profile.
  - Values are independent of dose order and linear in the amounts.
  - A 0 mg dose adds nothing.
  - A single 40 mg dose gives the profile followed by one 0.
  - Values are never negative.
- `WebApp`:
  - the in-place accumulation loop of `generate_graph` over an array;
  - class `DayStore` for the module-level `saved_days` dictionary, with `new_day`, `add_dose`,
    `delete_dose` and the file that `save_data` writes.
- `DesktopApp`:
  - the accumulation loop of `update_graph`;
  - `list.remove`;
  - class `SideBySideApp` for the app object, with `build`, `add_dose`, the delete-button
    closures, `update_graph`, `save_day` and `load_day`;
  - the day-numbering invariant these methods keep;
  - the JSON conversion of saved days.

Times are minutes since midnight of one reference day (`datetime.today()` at 00:00 in the
source). Times past midnight run on past 1440, as `timedelta` additions do in the source. Amounts
are exact `real`s.

`effect_duration` is `len(effect_percent) * time_step` = 19 × 30 = 570 minutes in both files,
one step more than the 540 minutes from a dose to its last profile sample. So the grid's last
point lies more than 0 and at most 30 minutes after latest + 540. The grid thus reaches past
every sample, and the web `break` on a sample past the grid end never fires. The desktop version
has no such check, and it never needs one. `EffectProperties.ImplementationsAgree` proves both
front ends give the same series for every dose list.

Desktop `save_day` is modelled as written, including its failure. `build` turns every loaded
time into a `datetime`. Afterwards `json.dump` fails whenever a saved entry still holds one, and
the file is left broken (see "## Findings").

## Model

| member | source | states |
|---|---|---|
| `Clock.MinuteOfDay` | module1.py:34 | the normalised time of a dose is a minute of the day in [0, 1440) |
| `Clock.FormatHHMM` | lisagraph.py:229 | strftime("%H:%M") writes five characters: two digits, a colon, two digits |
| `Clock.ParseHHMM` | lisagraph.py:144 | strptime(s, "%H:%M") accepts only text that is exactly the HH:MM spelling of the time it returns |
| `Clock.ParseFormat` | lisagraph.py:252-253 | parsing the text written for a time gives back that hour and minute |
| `Decimal.NatToDecimal` | lisagraph.py:45 | the number in f"Day {n}" is a non-empty run of digits whose value is n, with no leading zero unless n is 0 |
| `Days.DayName` | lisagraph.py:45 | definition: f"Day {n}" (also lisagraph.py:51, module1.py:121); `Days.DayNameIndex` and `DayNameInjective` state its meaning |
| `Days.KeyIndex` | lisagraph.py:49 | definition: int(k.split(" ")[1]) on a day key; `Days.DayNameIndex` inverts `DayName` with it |
| `Days.DayNameIndex` | lisagraph.py:49 | int(k.split(" ")[1]) of the name "Day n" is n |
| `Days.DayNameInjective` | lisagraph.py:51 | different day indices give different day names |
| `Days.FreshDayName` | lisagraph.py:49-52 | a name whose index exceeds every existing key's index is not yet a key |
| `Effect.EffectDuration` | module1.py:15 | definition: len(effect_percent) * time_step, 570 for the fixed profile; `EffectProperties.SamplesBeforeGridEnd` states what it guarantees |
| `Effect.SampleTime` | module1.py:50 | definition: a dose's sample i falls i * 30 minutes after the dose (also lisagraph.py:196); used by the grid lemmas below |
| `Effect.Contribution` | module1.py:47-55 | definition: sample i adds perc * dose / 40; `EffectProperties.DoseAtFactor` and `DoseAtNonNegative` state its properties |
| `Effect.DoseAt` | lisagraph.py:194-198 | definition: the desktop share of one dose at a grid point, every sample snapped to its nearest point; its meaning is given by `EffectProperties.AlignedDose` and `DoseAtFactor` |
| `Effect.SeriesAt` | lisagraph.py:193-198 | definition: the desktop sum of all doses' shares at a grid point; `SeriesAtConcat`, `SeriesAtPermutation` and `SeriesAtScaled` state its properties |
| `Effect.ClippedDoseAt` | module1.py:49-55 | definition: the web share of one dose, without samples past the grid end; `Effect.ClippedStopsAtEnd` shows this is the break |
| `Effect.ClippedSeriesAt` | module1.py:46-55 | definition: the web sum at a grid point; `EffectProperties.ClippedSeriesAgrees` ties it to the desktop sum |
| `Effect.EffectValues` | lisagraph.py:191-198 | definition: the desktop sums at every grid point, which `DesktopApp.ApplyDosesNearest` computes in place |
| `Effect.ClippedEffectValues` | module1.py:40-55 | definition: the web sums at every grid point, which `WebApp.ApplyDosesClipped` computes in place |
| `Effect.DoseGrid` | module1.py:37-39 | the grid of the plotted series has at least one point; `EffectProperties.DoseGridShape` gives its start, size and end |
| `Effect.EffectSeries` | lisagraph.py:179-198 | definition: no series without doses, else timestamps and desktop sums on the dose grid; `EffectProperties.ImplementationsAgree`, `OrderIndependent` and `ScalingLinear` state its properties |
| `Effect.ClippedEffectSeries` | module1.py:28-55 | definition: the same with the web sums; equal to `EffectSeries` by `EffectProperties.ImplementationsAgree` |
| `Effect.DateRange` | module1.py:39 | the grid starts at start, has at least one point, and its last point is at most end and less than 30 minutes before it |
| `Effect.Nearest` | module1.py:53 | the snapped position always lies inside the grid |
| `Effect.NearestIsClosest` | lisagraph.py:197 | the snapped point is at least as close to the sample as every grid point, and every later point is strictly farther away |
| `Effect.EarliestMinute` | module1.py:37 | no dose is earlier than the grid start, and some dose is at it |
| `Effect.LatestMinute` | module1.py:38 | no dose is later than it, and some dose is at it |
| `Effect.ClippedStopsAtEnd` | module1.py:51-52 | once one sample lies past the last grid point, the remaining samples add nothing, so breaking out is the same as skipping each late sample |
| `EffectProperties.DoseGridShape` | module1.py:37-39 | the grid starts at the earliest dose, steps by 30, has (latest + 570 - earliest) / 30 + 1 points, and its last point is within one step before latest + 570 |
| `EffectProperties.SamplesBeforeGridEnd` | module1.py:49-52 | every sample of every dose lies strictly before the last grid point, so the break is never taken |
| `EffectProperties.ClippedDoseAgrees` | module1.py:49-55 | for a dose whose samples all lie on the grid, the web version's sum with its bound check equals the desktop version's sum |
| `EffectProperties.ClippedSeriesAgrees` | module1.py:46-55 | on a grid reaching every sample, the web sum equals the desktop sum at every point |
| `EffectProperties.ImplementationsAgree` | lisagraph.py:193-198 | for every dose list the desktop series equals the web series |
| `EffectProperties.NearestOfPoint` | lisagraph.py:197 | a time that is a grid point snaps to exactly that point |
| `EffectProperties.AlignedDose` | lisagraph.py:195-198 | a dose o steps after the grid start puts sample i exactly at index o + i, and nothing anywhere else |
| `EffectProperties.AlignedDoseShifted` | lisagraph.py:195-198 | an aligned dose contributes its profile shifted to its offset and scaled by amount / 40 |
| `EffectProperties.AlignedSeries` | lisagraph.py:193-198 | for aligned doses each value is the pointwise sum of the shifted, scaled profiles |
| `EffectProperties.AllAligned` | lisagraph.py:188-190 | doses a whole number of steps after the earliest one sit on grid points, with all their samples inside the grid |
| `EffectProperties.PlottedValue` | lisagraph.py:191-198 | the plotted series has one value per grid point, and each is the sum of what the doses add there |
| `EffectProperties.AlignedDosesOnOwnGrid` | lisagraph.py:188-198 | when every dose is a whole number of steps after the earliest, the plotted values are that pointwise sum |
| `EffectProperties.SingleReferenceDose` | module1.py:13-55 | one 40 mg dose gives 20 points from the dose time on: the 19 profile entries, then 0 |
| `EffectProperties.SeriesAtConcat` | module1.py:46-55 | the value at a point for two dose lists together is the sum of their values |
| `EffectProperties.SeriesAtRemove` | module1.py:46-55 | the value at a point is what one dose adds plus the value of the other doses |
| `EffectProperties.SeriesAtPermutation` | module1.py:46-55 | reordering the doses leaves every value unchanged |
| `EffectProperties.EarliestSameTimes` | module1.py:37 | of two dose lists taken at the same set of times, the second has no later earliest time than the first (applied both ways, they agree) |
| `EffectProperties.LatestSameTimes` | module1.py:38 | of two dose lists taken at the same set of times, the first has no later latest time than the second (applied both ways, they agree) |
| `EffectProperties.SameTimesSameGrid` | module1.py:37-39 | dose lists taken at the same set of times get the same grid |
| `EffectProperties.OrderIndependent` | lisagraph.py:188-198 | the plotted series depends only on the doses as a multiset, not on their order |
| `EffectProperties.DoseAtFactor` | module1.py:47-55 | what a dose adds to a point is amount / 40 times its profile weight at that point |
| `EffectProperties.DoseAtScaled` | module1.py:47-55 | a dose of c times the amount at the same time adds c times as much to every point |
| `EffectProperties.SeriesAtScaled` | module1.py:46-55 | multiplying every amount by c multiplies the value at every point by c |
| `EffectProperties.ScaledValues` | module1.py:46-55 | on a given grid, scaling every amount scales every value |
| `EffectProperties.ScalingLinear` | module1.py:46-55 | scaling every amount by c keeps the timestamps and multiplies every plotted value by c |
| `EffectProperties.ZeroDoseAtNothing` | module1.py:47-55 | a 0 mg dose adds 0 to every point |
| `EffectProperties.ZeroDoseAddsNothing` | module1.py:46-55 | adding a 0 mg dose leaves every value unchanged |
| `EffectProperties.DoseAtNonNegative` | lisagraph.py:194-198 | with a non-negative amount and profile, a dose adds nothing negative |
| `EffectProperties.SeriesAtNonNegative` | lisagraph.py:193-198 | with non-negative amounts and profile, no value is negative |
| `WebApp.ApplyDosesClipped` | module1.py:40-55 | the array filled by the nested loop with its break holds, at each grid point, the web sum for that point |
| `WebApp.GenerateGraph` | module1.py:28-55 | no series exactly when there are no doses; otherwise the series on the dose grid, equal to the desktop series |
| `WebApp.RemoveMatching` | module1.py:149 | the filter drops every copy of the target (multiset with its count set to 0) and keeps every other entry |
| `WebApp.RemoveMatchingConcat` | module1.py:149 | filtering works piece by piece, so the kept entries stay in their order |
| `WebApp.RemoveMatchingIdempotent` | module1.py:149 | deleting the same dose twice deletes nothing more the second time |
| `WebApp.NothingToRemove` | module1.py:149 | deleting a dose that is not there leaves the day unchanged |
| `WebApp.DayStore.constructor` | module1.py:18-22 | the store starts as the file's content, or as one empty "Day 1" without a file; the file is left as it was |
| `WebApp.DayStore.NewDay` | module1.py:120-123 | adds the key "Day {len + 1}" with an empty list and writes the file |
| `WebApp.DayStore.AddDose` | module1.py:132-137 | succeeds exactly when the day exists, the amount is a number and the time reads as HH:MM; then it appends exactly one entry at the end and writes the file; otherwise nothing changes |
| `WebApp.DayStore.DeleteDose` | module1.py:146-150 | succeeds exactly when the day exists and the amount is a number; then the day's list is filtered and the file written; otherwise nothing changes |
| `WebApp.WebNewDayFresh` | module1.py:120-122 | when the days are numbered 1 .. n, the name new_day picks is not yet a key |
| `WebApp.WebNewDayCanOverwrite` | module1.py:120-122 | with a gap in the numbering, new_day can pick an existing day and replace its doses with an empty list |
| `DesktopApp.ApplyDosesNearest` | lisagraph.py:191-198 | the array filled by the nested loop holds, at each grid point, the desktop sum for that point |
| `DesktopApp.FirstIndex` | lisagraph.py:164 | the position list.remove takes out holds the value, and no earlier position does |
| `DesktopApp.RemoveFirst` | lisagraph.py:164 | definition: list.remove of the first equal element, no change when absent; `DropFirst` computes it and `RemoveFirstOneCopy` states its meaning |
| `DesktopApp.DropFirst` | lisagraph.py:163-164 | the search loop followed by the removal removes the first equal dose, and leaves the list unchanged when none is present |
| `DesktopApp.RemoveFirstOneCopy` | lisagraph.py:264-265 | removing a present dose takes exactly one copy out of the multiset and shortens the list by one |
| `DesktopApp.EntryTime` | lisagraph.py:250-255 | the time load_day rebuilds, by strptime of the stored text or by taking the datetime as is, is the time the entry was made from |
| `DesktopApp.FormatEntries` | lisagraph.py:229 | one stored entry per dose, in order; `SaveLoadRoundTrip` shows it keeps every amount and time |
| `DesktopApp.ToDoses` | lisagraph.py:250-257 | one rebuilt dose per stored entry, in order; `SaveLoadRoundTrip` and `DumpLoadRoundTrip` state what it gives back |
| `DesktopApp.SaveLoadRoundTrip` | lisagraph.py:229-255 | loading a day that save_day stored gives back the saved doses in order |
| `DesktopApp.LoadDays` | lisagraph.py:36-40 | reading the file keeps every day and its number of doses and turns every time into a datetime |
| `DesktopApp.DumpDays` | lisagraph.py:232-233 | definition: json.dump as written, failing when some entry holds a datetime, otherwise writing `DumpDaysFixed`; `ReloadedDayBlocksDump` and `StoringTextKeepsDumpable` state when it fails and when it succeeds |
| `DesktopApp.ReloadedDayBlocksDump` | lisagraph.py:233 | once a day with doses has been read from the file, the next save_day cannot write the file |
| `DesktopApp.StoringTextKeepsDumpable` | lisagraph.py:229-233 | storing the current day as HH:MM text never adds a datetime, so when no saved entry holds one the dump succeeds |
| `DesktopApp.SavedEntries` | lisagraph.py:233 | one string entry per saved entry, in order; `DumpLoadRoundTrip` shows each time is written as HH:MM |
| `DesktopApp.DumpDaysFixed` | lisagraph.py:229-233 | the dump that succeeds, and the corrected dump: every saved day written, each time as HH:MM |
| `DesktopApp.DumpLoadRoundTrip` | lisagraph.py:36-40 | the corrected file reads back with every day, amount and time in the same order |
| `DesktopApp.NextDayIndex` | lisagraph.py:43-52 | with no saved days the index is 1; otherwise it is one more than some key's index and above every key's index |
| `DesktopApp.OpenDay` | lisagraph.py:51-52 | opening a day numbered above every key gives a fresh name and keeps the days numbered |
| `DesktopApp.NextDayKeepsNumbering` | lisagraph.py:229-238 | storing the current day and opening the next keeps the days numbered, and the next name is fresh |
| `DesktopApp.SideBySideApp.Build` | lisagraph.py:29-52 | the loaded days plus a fresh, empty current day numbered 1 without saved days, else one more than some saved index and above every saved index (max + 1); no doses and no graph yet; the file is left as it was |
| `DesktopApp.SideBySideApp.UpdateGraph` | lisagraph.py:179-198 | the graph is cleared exactly when there are no doses, and otherwise shows the series of the current doses |
| `DesktopApp.SideBySideApp.AddDose` | lisagraph.py:139-177 | succeeds exactly when the time reads as HH:MM and the amount is a number; then appends one dose at the end and redraws; otherwise nothing changes |
| `DesktopApp.SideBySideApp.DeleteDose` | lisagraph.py:162-166 | the first equal dose, if any, leaves the list and the graph is redrawn |
| `DesktopApp.SideBySideApp.SaveDay` | lisagraph.py:225-244 | no doses: nothing changes. Otherwise the doses are stored as HH:MM under the current name and the saved days are dumped. The dump succeeds exactly when no entry holds a datetime; then the file holds the dump, a fresh empty day is opened and the doses and graph are cleared. Otherwise the file is broken and the day, counter, doses and graph stay as they were |
| `DesktopApp.SideBySideApp.LoadDay` | lisagraph.py:246-274 | the dose list becomes the named day's doses in order and the graph is redrawn; the current day stays |

## Left out

- User interfaces: Kivy widgets, dose rows, labels, the toolbar and its sorted day buttons, and the matplotlib and plotly figures. None of these affect the data.
- Flask routing, templates and redirects. The `index` and `load_day` routes only parse a day and call `generate_graph`, which is modelled.
- Web `add_dose` / `delete_dose` with no `day` argument fall back to the last key of `sorted(saved_days.keys())`, a string sort. The model always takes the day explicitly.
- What happens after desktop `save_day` raises: the model returns the state at the failed `json.dump`. It does not model whether Kivy's event loop then stops the app, nor the partial text `json.dump` leaves in the file (the file is `Broken`).
- JSON parsing and writing. The files are modelled as the maps they hold. A stored time that does not read as HH:MM makes the desktop `build` stop with a `ValueError` from strptime (lisagraph.py:40); that is the first half of `DesktopApp.SideBySideApp.Build`'s precondition.
- `DesktopApp.SideBySideApp.Build`: the key shape is an assumption, not an error path. The model assumes every key is "Day " followed by digits. That is the only form either app writes (lisagraph.py:45, 51 and 237; module1.py:22 and 121). `build` itself only reads `int(k.split(" ")[1])` (lisagraph.py:49), so a key with another first word or with trailing words, such as "Week 2" or "Day 2 Mon", loads without error with index 2. Such keys are left out.
- The debug `print`s of `generate_graph`.
- `datetime.today()`: all times are taken on one reference day. The date part of a datetime, and wrap-around past midnight, are not modelled.
- Float parsing and rounding. `float(text)` is an `Option<real>` input, and amounts and `dose / 40` are exact reals.
- pandas dtypes: the int-to-float upcast of the `pd.Series(0, ...)` accumulator.
- `Clock.ParseHHMM`: strict two-digit HH:MM. strptime's leniency for forms such as "8:5" is not modelled, and neither is the `strip()` of the input fields.
- `Effect.Nearest`: pandas decides a tie between two grid points, which arises only for a sample exactly 15 minutes past a point. The model gives it to the later point, an explicit choice. Aligned samples never tie, so every lemma holds whatever the tie rule, except the second ensures of `Effect.NearestIsClosest` (every later grid point is strictly farther away), which states the tie rule itself.
- `Days.IsDayKey`: keys are "Day " followed by digits. The extra spellings `int()` also accepts, such as signs or surrounding blanks, are left out.
- Effect functions take the profile as a parameter, with 30-minute steps and the 40 mg reference written as literals. The front ends pass `EFFECT_PERCENT`.
- Concurrent Flask requests on the shared dictionary.

## Findings

| source | as written | input that shows it | evidently intended | confidence | as-written member | corrected member |
|---|---|---|---|---|---|---|
| lisagraph.py:233 | `build` replaces every loaded time by a `datetime` (line 40). `save_day` then passes `saved_days` to `json.dump`, which cannot serialise a `datetime` and raises `TypeError`. This happens after the file has been opened for writing, so `doses.json` is left truncated or partly written, and the new day is never opened. `DesktopApp.SideBySideApp.SaveDay` models this failing save. | A `doses.json` of `{"Day 1": [[40.0, "08:00"]]}`. Start the app, add a dose and press Save Day. | Every stored time is written as an "HH:MM" string, whatever form it is held in, so the file reads back the same. | not executed | `DesktopApp.ReloadedDayBlocksDump` | `DesktopApp.DumpLoadRoundTrip` |
