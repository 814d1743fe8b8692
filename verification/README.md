# weather_app in Dafny

A Dafny model of the decision logic of the "weather lounge" desktop app.
The richer PyQt version (`app.py` with `openWeatherMapAPI.py`) has five parts:

- It turns the current weather condition and icon code into a scene: a background picture, an animated foreground effect, a music category and one track of that category. The track is only reloaded when it differs from the one playing.
- It groups the provider's 3-hour forecast feed into calendar days.
- It summarises each day in a weekly tile: the dominant icon and the min/max temperature, for at most eight days.
- It lists the 3-hour steps of one day as hourly rows labelled "HH:MM - HH:MM" in UTC.
- It turns a typed city name into dropdown labels, and a city name into the coordinates of the first geocoding match.

The first, single-window version (`main.py`) picks one of four scenes by substring tests on the condition.

Modules:

- `Results` (results.dfy): `Option`, `Result` and the reasons an operation stops early. Python exceptions and early returns become `Err` values here.
- `Text` (text.dfy): the Python string operations the app uses:
  - `strip` with the full `isspace` set;
  - ASCII `lower`;
  - `endswith` and the `in` substring test;
  - two-digit `%H`/`%M` formatting;
  - ", "-joined labels.
- `Seqs` (seqs.dfy): distinctness, first occurrence, the distinct values in first-occurrence order (the key order of a dict filled from a sequence), and contiguous runs.
- `Forecast` (forecast.dfy): the forecast entry, the date key, and the grouping `get_daily_forecast` performs. It is proved against an independent characterisation: the bucket dates are the distinct date keys in first-occurrence order, and each bucket is the in-order filter of the feed by its date.
- `DaySummary` (summary.dfy): the icon table, the most common icon with ties going to the first seen, min/max, the weekly tiles, the UTC clock and hour-range label, the hourly rows and the default day.
- `Scene` (scene.dfy): the condition table, the effect and music chains, the track table, the random pick and the reload-only-if-changed player rule.
- `Search` (search.dfy): `list_cities` and `set_location`. The geocoding service is a function parameter.
- `Legacy` (legacy.dfy): `main.py`'s substring classifier and its fetch-or-return refresh.
- `App` (controller.dfy): one run of `update_weather`, including the weekly table and hourly panel updates, with tile visibility as corrected under "## Findings". The source never shows a hidden tile again. The model reports the window state at the point where a step fails.

Modelling choices:

- Temperatures and coordinates are `real`.
- The random track pick is an index `pick < 4`, one for each track of a category. A lemma shows that exactly the category's tracks can come out.
- Asset paths are relative to the app's asset directory.
- Clock readings use Dafny's `%`, which floors like Python's `fromtimestamp` on a UTC clock. The model is total on integer timestamps. Python's `datetime` covers only years 1 to 9999, and on some platforms rejects negative timestamps (see "## Left out").
- The track reload test compares the chosen track path with the stored one, as the source does. So two different tracks of the same category also trigger a reload. A change of category always reloads, because no two categories share a track (`Scene.CategoryChangeReloads`).
- Buckets read back in order reproduce the feed only when the entries of each date are contiguous (`Forecast.FlattenGrouped`). With interleaved dates, the buckets reorder the feed.

## Model

| member | source | states |
|---|---|---|
| Text.TrimLeft | app.py:347 | the result is a suffix of the input, everything removed is white space in the `str.isspace` sense, and what is left does not start with white space |
| Text.TrimRight | app.py:347 | the result is a prefix, everything removed is white space, and what is left does not end with white space |
| Text.Strip | app.py:347 | `str.strip()`; what it removes and keeps is stated by Text.TrimLeft and Text.TrimRight, and its blank test by Text.StripEmptyIff |
| Text.StripEmptyIff | app.py:347-348 | `strip()` gives the empty string exactly when the text is all white space, which is the blank-query test |
| Text.StripIdempotent | app.py:347 | stripping twice is stripping once |
| Text.Lower | app.py:709 | lower-casing keeps the length and maps each character through the ASCII case map |
| Text.ContainsIff | main.py:71-77 | the scanning substring test holds exactly when the word occurs at some position, in both directions |
| Text.Contains | main.py:71-77 | Python's `in`; it holds exactly when the word occurs at some position, stated by Text.ContainsIff |
| Text.TwoDigitsRoundTrip | app.py:646-647 | two-digit `%H`/`%M` text reads back as the number it was made from |
| Text.SplitJoinRoundTrip | app.py:365-368 | ", "-joined fields without commas split back into exactly the same fields |
| Seqs.FirstIndex | app.py:535 | the position returned holds the value and no earlier position does |
| Seqs.Dedup | openWeatherMapAPI.py:56-59 | the distinct values: every result value comes from the input, every input value is in the result, no repeats |
| Seqs.DedupSnoc | openWeatherMapAPI.py:59 | appending a value adds it to the distinct values exactly when it is new |
| Seqs.DedupHead | app.py:704 | the first distinct value is the first value |
| Seqs.DedupFirstOccurrenceOrder | openWeatherMapAPI.py:56-59 | distinct values are listed in strictly increasing order of their first occurrence |
| Seqs.DedupLastGrouped | openWeatherMapAPI.py:57-59 | when equal values are contiguous, the last distinct value is the last value |
| Forecast.DateKey | openWeatherMapAPI.py:58 | the key is the prefix before the first space, or the whole text when there is none |
| Forecast.DateKeyOfStamp | openWeatherMapAPI.py:58 | for "date time" text with a space-free date, the key is the date |
| Forecast.Select | openWeatherMapAPI.py:57-59 | the reference bucket: every selected entry carries the date, and it is non-empty exactly when the date occurs in the feed |
| Forecast.AddEntry | openWeatherMapAPI.py:59 | `setdefault(date, []).append(entry)`: an existing date's bucket grows by the entry at its end and all other buckets stay; a new date gets a one-entry bucket after all others |
| Forecast.BucketByDay | openWeatherMapAPI.py:54-61 | the result is the grouping of the feed: dates are the distinct keys in first-occurrence order, and each bucket is exactly its date's entries in feed order |
| Forecast.BucketStep | openWeatherMapAPI.py:57-59 | one loop iteration keeps the grouping characterisation |
| Forecast.BucketsWellFormed | openWeatherMapAPI.py:58-59 | bucket dates are distinct, no bucket is empty, and every entry carries its bucket's date |
| Forecast.EntryHasBucket | openWeatherMapAPI.py:57-59 | every entry's date has exactly one bucket |
| Forecast.AddEntryTotal | openWeatherMapAPI.py:59 | each append grows the total bucket size by one |
| Forecast.BucketTotal | openWeatherMapAPI.py:56-61 | the bucket sizes add up to the feed length, so no entry is lost or duplicated |
| Forecast.FlattenGrouped | openWeatherMapAPI.py:56-61 | when same-date entries are contiguous, the buckets read in order give back the feed |
| Forecast.FirstBucketIsFirstDate | app.py:704 | the first bucket's date is the first entry's date |
| Forecast.BucketOrder | openWeatherMapAPI.py:56-61 | bucket i's date first occurs in the feed before bucket j's for i < j |
| DaySummary.IconAssetFallback | app.py:536 | the clear-day asset is used exactly for "01d" and unknown codes, and the asset always comes from the icon table |
| DaySummary.IconAsset | app.py:536 | `ICON_MAP.get(code, clear_d)`, stated both ways by DaySummary.IconAssetFallback |
| DaySummary.MostCommonUnique | app.py:535 | at most one code is the most common with ties broken by first occurrence |
| DaySummary.ScanMostCommon | app.py:535 | the scan ends on the code of maximal count that occurs first among those |
| DaySummary.MostCommon | app.py:534-535 | a non-empty day has a dominant code: maximal count, earlier codes strictly rarer; an empty day has none |
| DaySummary.TieGoesToFirstSeen | app.py:535 | with two codes seen twice each, the one seen first wins |
| DaySummary.MinOf | app.py:546 | the minimum is one of the temperatures and no temperature is below it |
| DaySummary.MaxOf | app.py:547 | the maximum is one of the temperatures and no temperature is above it |
| DaySummary.TileOf | app.py:529-548 | a tile exists exactly for a non-empty day and describes it: date, dominant code and its asset, and the day's temperature range |
| DaySummary.TileRangeOrdered | app.py:545-548 | a tile's low never exceeds its high |
| DaySummary.Tiles | app.py:525-548 | tiles for the first n days exist exactly when none of them is empty, and tile i describes day i |
| DaySummary.WeeklyTable | app.py:522-555 | with at least one day, the first min(8, days) days get tiles in bucket order; no day at all is an error, because the loop variable is never bound |
| DaySummary.WeeklyTableOfFeed | app.py:698-701 | a table built from a non-empty feed never fails, and its first tile is the feed's first date |
| DaySummary.ClockOf | app.py:644-646 | the UTC hour and minute are the ones whose minute contains the timestamp's second of the day |
| DaySummary.ThreeHoursLater | app.py:645-647 | three hours later the hour is (hour + 3) mod 24 and the minute is the same |
| DaySummary.ClockRoundTrip | app.py:646-647 | `HH:MM` text reads back as the clock it was made from |
| DaySummary.HourRangeReadsBack | app.py:643-648 | the row label is 13 characters, "start - end", where the start reads back as the UTC start and the end as three hours later |
| DaySummary.HourRange | app.py:644-648 | the "HH:MM - HH:MM" label; it reads back as the UTC start and three hours later, stated by DaySummary.HourRangeReadsBack |
| DaySummary.AllHourRangesReadBack | app.py:644-648 | every label is 13 characters and reads back as the start and the end three hours later |
| DaySummary.RowOf | app.py:643-664 | one hourly row from one entry; its fields are stated by DaySummary.HourlyPanel |
| DaySummary.HourlyPanel | app.py:637-670 | row i shows entry i's icon asset, humidity and temperature, and its time label reads back as the UTC start and the time three hours later; a day longer than the 24 rows is an error |
| DaySummary.DefaultDay | app.py:704 | a default day exists exactly when there are days, and it is the first bucket's date |
| DaySummary.SelectDay | app.py:638 | `daily[date]` succeeds exactly for a date that has a bucket, and gives that bucket's entries |
| DaySummary.DefaultDayOfFeed | app.py:698-705 | for any non-empty feed the default day is the first entry's date, and its entries are that date's entries in feed order |
| Scene.BackgroundRoot | app.py:718-737 | `condition_map.get(condition, "clear")`, stated group by group by Scene.BackgroundRootTable |
| Scene.DayNight | app.py:710-711 | "n" exactly when the icon code ends in 'n', stated by Scene.BackgroundKeyShape |
| Scene.BackgroundKey | app.py:740 | root, "_", day/night letter, stated by Scene.BackgroundKeyShape |
| Scene.Effect | app.py:742-774 | the effect chain, stated by Scene.EffectTable and checked against the per-category table by Scene.EffectFollowsRoot |
| Scene.MusicKey | app.py:742-774 | the music chain, stated by Scene.MusicTable and checked against the per-category table by Scene.MusicFollowsRoot |
| Scene.Tracks | app.py:55-106 | each category has four tracks, `music/<stem>1.mp3` to `music/<stem>4.mp3` in that order |
| Scene.EffectFollowsRoot | app.py:737-774 | the effect chain agrees with an independent per-background-category table |
| Scene.MusicFollowsRoot | app.py:737-774 | the music chain agrees with an independent per-background-category table, so unknown conditions get the clear music |
| Scene.BackgroundKeyShape | app.py:709-740 | the background key is root, "_", then "n" exactly when the icon ends in 'n' and "d" otherwise, including empty icons |
| Scene.BackgroundRootTable | app.py:718-737 | mist/fog/haze share "fog", sand goes with "dust", ash with "smoke", the other listed conditions map to themselves, and unlisted ones give "clear" |
| Scene.EffectTable | app.py:714-774 | each effect is chosen for exactly its conditions; no effect exactly for the clear, clouds and tornado roots |
| Scene.MusicTable | app.py:742-777 | the music key always names a track list; "atmosphere" is for exactly the fog and dust conditions, "clouds" only for clouds, and "clear" for everything unnamed |
| Scene.MusicMapFollowsStems | app.py:55-106 | every category's list is its four numbered tracks |
| Scene.ChooseScene | app.py:708-777 | the background is the picture for the lower-cased condition's key, the chosen track is in the chosen category's list, and effect and music follow the lower-cased condition's background category |
| Scene.TrackChoiceCoversCategory | app.py:776-777 | a track can be picked exactly when it is in the category's list |
| Scene.RainDayExample | app.py:740-747 | rain by day gives rain_d, the rain effect and rain music |
| Scene.SnowNightExample | app.py:740-755 | snow by night gives snow_n, the snow effect and snow music |
| Scene.ClearDayExample | app.py:740-774 | clear by day gives clear_d, no effect and clear music |
| Scene.UnknownConditionGetsClearScene | app.py:737-774 | a condition outside the table gets the clear background, by day or by night, with no effect and clear music |
| Scene.ChooseSceneIgnoresCase | app.py:709 | conditions equal after lower-casing get the same scene |
| Scene.TrackListsDisjoint | app.py:55-106 | no track belongs to two categories |
| Scene.PlayTrack | app.py:784-787 | the player reloads exactly when the chosen path differs from the stored one; afterwards the stored path is the chosen one, and nothing changes otherwise |
| Scene.PlayTrackIdempotent | app.py:784-787 | asking again for the track just chosen does not reload |
| Scene.CategoryChangeReloads | app.py:776-787 | moving to a different music category always reloads |
| Scene.SetScene | app.py:708-787 | the scene is the one chosen for the condition, icon and pick; afterwards the stored track is the scene's track, and the reload happened exactly when it differs from the old one |
| Search.LabelFields | app.py:361-368 | the state is among the label fields exactly when non-empty; the name comes first and the country last |
| Search.Label | app.py:361-368 | the dropdown label; it splits back into its fields, stated by Search.LabelReadsBack |
| Search.LabelReadsBack | app.py:365-368 | a label splits back into "name, state, country" or "name, country" for comma-free fields |
| Search.Labels | app.py:359-370 | one label per hit, in provider order |
| Search.ListCities | app.py:346-384 | a blank query is refused, and an empty answer is refused; otherwise one label per hit in provider order, with the stripped query kept as the edit text |
| Search.BlankQueryNeverLooksUp | app.py:347-353 | a blank query gives the same refusal whatever the service would answer, so it issues no request |
| Search.ListCitiesIgnoresPadding | app.py:347 | surrounding white space does not change the search |
| Search.SetLocation | openWeatherMapAPI.py:16-27 | one hit is requested; an empty answer is "not found", otherwise the first hit's coordinates |
| Search.SetLocationUsesFirstHit | openWeatherMapAPI.py:27 | answers with the same first hit give the same location |
| Legacy.Classify | main.py:70-82 | rain exactly when "rain" occurs; snow when "snow" occurs but not "rain"; clear when only "clear" occurs; night otherwise |
| Legacy.ClassifyByOccurrence | main.py:71-82 | the same priority, stated with substring positions |
| Legacy.SetScene | main.py:70-82 | picture and music are `assets/bgs/<stem>.jpg` and `assets/music/<stem>.mp3` for the category's stem |
| Legacy.SceneMatchesMusic | main.py:70-82 | picture and music always name the same category, and two conditions get the same scene exactly when they share a category |
| Legacy.RainTakesPrecedence | main.py:71-73 | any condition containing "rain" is rain, whatever else it contains |
| Legacy.UpdateWeather | main.py:57-68 | a failed fetch changes nothing; otherwise the scene is exactly `set_scene` of the lower-cased condition (`assets/bgs/<stem>.jpg` and `assets/music/<stem>.mp3`), and the music is loaded again |
| Legacy.RepeatedFetchReplays | main.py:68-91 | each successful update loads the music again: the same report twice keeps the scene but loads the music twice (the program itself updates only once) |
| Legacy.UpdateIgnoresCase | main.py:62 | reports whose conditions agree after lower-casing give the same state |
| App.InitialWindow | app.py:473-633 | before the first refresh no tile or row is filled, all are visible, and no music is loaded (for a constructor that gets this far; see "## Left out") |
| App.Overlay | app.py:525-529 | the first widgets get the new contents and the rest keep theirs |
| App.FirstVisible | app.py:666-670 | exactly the first n widgets are visible |
| App.HideUnusedTilesAsWritten | app.py:553-555 | as written: tiles after the last filled one are hidden, and the others keep whatever visibility they had |
| App.AsWrittenNeverReshows | app.py:553-555 | as written: a tile can only go from shown to hidden |
| App.FilledTileStaysHidden | app.py:553-555 | as written: five days then six leaves the sixth tile hidden though it holds a day |
| App.TileVisibility | app.py:553-555 | corrected: exactly the tiles in use are visible |
| App.WeeklyUpdate | app.py:522-555 | corrected: tile i gets day i for the first min(8, days) days, exactly those tiles are visible, the rest keep their contents, and nothing else changes |
| App.HourlyUpdate | app.py:637-670 | row i gets entry i of the day, with its time label; rows past the day's entries keep their contents; exactly the rows in use are visible, and nothing else changes; a day without entries changes nothing, since the hiding loop sits inside the entry loop; an unknown date or a day longer than the panel fails |
| App.ShowCurrent | app.py:673-695 | the header shows the report, and the scene and player follow `set_scene` of the report's condition and icon |
| App.Refresh | app.py:672-705 | corrected tile visibility; a failed current fetch changes nothing; a failed forecast fetch leaves the new scene and changes nothing else; the cached days are always the feed's grouping; an empty feed is an error that leaves tiles and rows alone |
| App.RefreshFillsTiles | app.py:698-701 | corrected: after a refresh with a non-empty feed, the tiles describe the feed's first (at most eight) days in order and exactly those are visible |
| App.RefreshShowsFirstDay | app.py:703-705 | after a refresh with a non-empty feed, row i shows the first date's entry i (time label, icon asset, humidity, temperature), later rows keep their contents, and exactly those rows are visible, unless the date has more than 24 entries |

## Left out

- Qt widgets, styling, painting, `QMovie`/`QPixmap`, and the tkinter/PIL window of `main.py`. These are display only. Their effect is modelled as the window state `App.Window` and the legacy state.
- pygame mixer calls and `toggle_music`. These are audio device control. Only the "current track" state and the reload decision are modelled.
- The hourly `QTimer` refresh. This is scheduling only. `App.Refresh` is one run of `update_weather`, and any number of runs compose.
- HTTP requests, `raise_for_status`, JSON decoding, `config.json` loading and `geocoder.ip`. These are I/O and foreign calls. Replies are inputs: a `Result` for a fetch, and a geocoding function from query and limit to hits.
- `random.choice`: it is an arbitrary index below the list length, not a particular random generator.
- Weekday and date `strftime` text, `%.0f`/`%.1f` temperature text, `.title()` on descriptions, and the "-" defaults for missing humidity or wind. These are locale and float formatting.
- `datetime.strptime` of a date key that is not a valid date. This is a parse error of malformed provider data, which the model does not represent.
- `select_city`: not part of this model; it copies the chosen hit's coordinates and calls `update_weather`, which is modelled.
- `get_all_weather` and the commented-out One Call client. Neither is called by the app.
- `weatherapp.py`: placeholder GUI with hard-coded data, and no logic.
- Text.Lower: only ASCII letters are lower-cased. Python's `str.lower` also folds non-ASCII letters, but no condition or table key uses them.
- Legacy.UpdateWeather: an empty JSON object is treated like a failed fetch (both are `None` here), since `if not data` rejects both.
- DaySummary.HourlyPanel: a day with more than 24 entries fails as a whole. The source fills the first 24 rows before it fails. A day of 3-hour steps has at most 8 entries.
- App.Refresh: a failing step leaves the window as it was after the previous completed step. Partial updates inside one loop, which only malformed data can cause, are not modelled.
- App.Refresh: the `Outcome.failure` of a refresh marks where the source stops, not a state the app recovers into. Nothing in the app catches these exceptions. At start-up, a `ValueError` from `set_location` (openWeatherMapAPI.py:26) or an HTTP error escapes the window's constructor, so the program exits. As written, the constructor always raises `AttributeError` at app.py:247 in any case; see the next line. From the hourly timer, the exception goes to PyQt's unhandled-exception hook.
- Start-up of the richer app: the `App` model assumes a window constructor that gets past app.py:247. There the source reads `self.api.city`, which the client's constructor (openWeatherMapAPI.py:5-14) never sets; only `select_city` assigns it (app.py:393). So, as written, the constructor raises `AttributeError` before the widgets are built (app.py:297), the first `update_weather` runs (app.py:300) or the timer starts (app.py:304). The window state, the refresh and the tile-visibility finding describe the app once that line is passed.
- Timestamps outside Python's `datetime` range: `DaySummary.ClockOf` and `DaySummary.HourRange` are total on integers. In the source, `fromtimestamp` raises for instants outside years 1 to 9999 (and, on platforms whose `gmtime` rejects them, for negative timestamps), and `dt + timedelta(hours=3)` at app.py:645 raises `OverflowError` for a start after 9999-12-31 21:00 UTC. Provider timestamps are current dates, far inside the range.
- Legacy.UpdateWeather: a transport error from `requests.get` (main.py:50) raises in the source. It is not modelled; only a non-200 reply becomes `None`.
- The header and information-label text: `App.Current`'s `dt`, `temp` and `description`, and `Legacy.Report`'s `description` and `temp`, are carried only for this text, whose formatting is left out.

## Findings

| source | as written | input that shows it | evidently intended | confidence | as-written member | corrected member |
|---|---|---|---|---|---|---|
| app.py:553-555 | the loop after the weekly tiles only hides the tiles past the last filled one and never shows a tile again | a refresh whose feed spans 5 days, then the next hourly refresh whose feed spans 6: the sixth tile is filled with the sixth day but stays hidden | a tile is visible exactly when it holds one of the current days | not executed | App.HideUnusedTilesAsWritten, App.FilledTileStaysHidden | App.TileVisibility, App.WeeklyUpdate, App.Refresh, App.RefreshFillsTiles |
