/** What the app shows for the forecast (`LofiWeatherApp.update_weekly_table`,
    `update_hourly_panel` and the default day of `update_weather`), with the
    Qt widgets stripped away: the dominant icon and min/max temperature of a
    day tile, at most eight tiles, and the "HH:MM - HH:MM" label of an
    hourly row. */
module DaySummary {
  import opened Seqs
  import opened Text
  import opened Results
  import opened Forecast

  /** Number of day tiles the weekly table builds. */
  const MaxTiles := 8
  /** Number of hourly rows the hourly panel builds. */
  const MaxRows := 24
  /** Every forecast entry covers three hours. */
  const StepSeconds := 3 * 3600
  const SecondsPerDay := 86400

  /** Icon code to animated icon asset (`ICON_MAP`). */
  const IconMap: map<string, string> := map[
    "01d" := "icons/clear_d.gif",
    "01n" := "icons/clear_n.gif",
    "02d" := "icons/few_clouds_d.gif",
    "02n" := "icons/few_clouds_n.gif",
    "03d" := "icons/scattered_clouds.gif",
    "03n" := "icons/scattered_clouds.gif",
    "04d" := "icons/broken_clouds.gif",
    "04n" := "icons/broken_clouds.gif",
    "09d" := "icons/rain.gif",
    "09n" := "icons/rain.gif",
    "10d" := "icons/rain.gif",
    "10n" := "icons/rain.gif",
    "11d" := "icons/storm.gif",
    "11n" := "icons/storm.gif",
    "13d" := "icons/snow.gif",
    "13n" := "icons/snow.gif",
    "50d" := "icons/fog.gif",
    "50n" := "icons/fog.gif"
  ]

  /** Asset used for an icon code missing from the table. */
  const FallbackIcon := "icons/clear_d.gif"

  /** `ICON_MAP.get(code, clear_d)`. */
  function IconAsset(code: string): string {
    if code in IconMap then IconMap[code] else FallbackIcon
  }

  /** The clear-day asset is shown exactly for "01d" and for every code the
      table does not know; any other code gets its own table entry. */
  lemma IconAssetFallback(code: string)
    ensures IconAsset(code) == FallbackIcon <==> code == "01d" || code !in IconMap
    ensures IconAsset(code) in IconMap.Values
  {
    assert IconMap["01d"] == FallbackIcon;
  }

  /** How often `x` occurs in `s` (`Counter(s)[x]`). */
  function Count(s: seq<string>, x: string): nat {
    multiset(s)[x]
  }

  /** `c` is what `Counter(s).most_common(1)[0][0]` returns: a value of `s`
      with the highest count, and among those the one seen first. */
  predicate IsMostCommon(s: seq<string>, c: string) {
    && c in s
    && (forall i :: 0 <= i < |s| ==> Count(s, s[i]) <= Count(s, c))
    && (forall i :: 0 <= i < FirstIndex(s, c) ==> Count(s, s[i]) < Count(s, c))
  }

  /** The most-common rule with its first-seen tie-break never leaves a
      choice: at most one value satisfies it. */
  lemma MostCommonUnique(s: seq<string>, a: string, b: string)
    requires IsMostCommon(s, a) && IsMostCommon(s, b)
    ensures a == b
  {
    var ia := FirstIndex(s, a);
    var ib := FirstIndex(s, b);
    assert Count(s, s[ia]) <= Count(s, b) && Count(s, s[ib]) <= Count(s, a);
  }

  /** Scans positions `i..` keeping the first value with the strictly
      highest count seen so far. */
  function ScanMostCommon(s: seq<string>, i: nat, best: string): (c: string)
    requires 0 < i <= |s|
    requires best in s[..i]
    requires forall j :: 0 <= j < i ==> Count(s, s[j]) <= Count(s, best)
    requires forall j :: 0 <= j < FirstIndex(s, best) ==> Count(s, s[j]) < Count(s, best)
    ensures IsMostCommon(s, c)
    decreases |s| - i
  {
    assert best in s;
    if i == |s| then
      assert s[..i] == s;
      best
    else if Count(s, s[i]) > Count(s, best) then
      assert s[i] in s[..i + 1];
      assert FirstIndex(s, s[i]) == i;
      ScanMostCommon(s, i + 1, s[i])
    else
      assert s[..i + 1] == s[..i] + [s[i]];
      ScanMostCommon(s, i + 1, best)
  }

  /** The dominant icon of a day; `None` for an empty day, where the source's
      `most_common(1)[0]` raises. */
  function MostCommon(s: seq<string>): (r: Option<string>)
    ensures r.Some? <==> s != []
    ensures r.Some? ==> IsMostCommon(s, r.value)
  {
    if s == [] then None
    else
      assert s[0] in s[..1];
      Some(ScanMostCommon(s, 1, s[0]))
  }

  /** Tie-break example: with two of each, the code seen first wins. */
  lemma TieGoesToFirstSeen()
    ensures MostCommon(["10d", "04d", "10d", "04d"]) == Some("10d")
  {
    var s := ["10d", "04d", "10d", "04d"];
    assert multiset(s)["10d"] == 2 && multiset(s)["04d"] == 2;
    assert FirstIndex(s, "10d") == 0;
    assert IsMostCommon(s, "10d");
    MostCommonUnique(s, MostCommon(s).value, "10d");
  }

  /** Smallest temperature of a non-empty list (`min(temps)`). */
  function MinOf(ts: seq<real>): (m: real)
    requires |ts| > 0
    ensures m in ts
    ensures forall i :: 0 <= i < |ts| ==> m <= ts[i]
  {
    if |ts| == 1 then ts[0]
    else
      var rest := MinOf(ts[1..]);
      assert forall i :: 1 <= i < |ts| ==> ts[i] == ts[1..][i - 1];
      if ts[0] <= rest then ts[0] else rest
  }

  /** Largest temperature of a non-empty list (`max(temps)`). */
  function MaxOf(ts: seq<real>): (m: real)
    requires |ts| > 0
    ensures m in ts
    ensures forall i :: 0 <= i < |ts| ==> ts[i] <= m
  {
    if |ts| == 1 then ts[0]
    else
      var rest := MaxOf(ts[1..]);
      assert forall i :: 1 <= i < |ts| ==> ts[i] == ts[1..][i - 1];
      if ts[0] >= rest then ts[0] else rest
  }

  function Icons(es: seq<ForecastEntry>): (r: seq<string>)
    ensures |r| == |es| && forall i :: 0 <= i < |es| ==> r[i] == es[i].icon
  {
    seq(|es|, i requires 0 <= i < |es| => es[i].icon)
  }

  function Temps(es: seq<ForecastEntry>): (r: seq<real>)
    ensures |r| == |es| && forall i :: 0 <= i < |es| ==> r[i] == es[i].temp
  {
    seq(|es|, i requires 0 <= i < |es| => es[i].temp)
  }

  /** One weekly tile: date key, dominant icon code and its asset, and the
      day's temperature range. */
  datatype DayTile = DayTile(date: string, code: string, icon: string, low: real, high: real)

  /** The tile truly describes the bucket. */
  predicate Describes(t: DayTile, b: DayBucket) {
    && t.date == b.date
    && IsMostCommon(Icons(b.entries), t.code)
    && t.icon == IconAsset(t.code)
    && t.low in Temps(b.entries) && t.high in Temps(b.entries)
    && (forall i :: 0 <= i < |b.entries| ==> t.low <= b.entries[i].temp <= t.high)
  }

  /** One iteration of the weekly-table loop; `None` for an empty day. */
  function TileOf(b: DayBucket): (t: Option<DayTile>)
    ensures t.Some? <==> b.entries != []
    ensures t.Some? ==> Describes(t.value, b)
  {
    match MostCommon(Icons(b.entries))
    case None => None
    case Some(code) =>
      Some(DayTile(b.date, code, IconAsset(code), MinOf(Temps(b.entries)), MaxOf(Temps(b.entries))))
  }

  /** A tile's range is never inverted. */
  lemma TileRangeOrdered(b: DayBucket)
    requires b.entries != []
    ensures TileOf(b).value.low <= TileOf(b).value.high
  {
    assert TileOf(b).value.low <= b.entries[0].temp;
  }

  function MinNat(a: nat, b: nat): nat {
    if a <= b then a else b
  }

  /** Tiles for the first `n` days, `None` if one of them is empty. */
  function Tiles(days: seq<DayBucket>, n: nat): (r: Option<seq<DayTile>>)
    requires n <= |days|
    ensures r.Some? <==> forall i :: 0 <= i < n ==> days[i].entries != []
    ensures r.Some? ==> |r.value| == n && forall i :: 0 <= i < n ==> Describes(r.value[i], days[i])
  {
    if exists i | 0 <= i < n :: days[i].entries == [] then None
    else Some(seq(n, i requires 0 <= i < n => TileOf(days[i]).value))
  }

  /** `update_weekly_table`: tile `i` shows day `i`, for at most eight days
      in bucket order. With no day at all the source fails (its loop
      variable is never bound), and an empty day fails its icon count. */
  function WeeklyTable(days: seq<DayBucket>): (r: Result<seq<DayTile>>)
    ensures r.Ok? <==> days != [] && forall i :: 0 <= i < MinNat(MaxTiles, |days|) ==> days[i].entries != []
    ensures r.Err? && days == [] ==> r.failure == NoForecastData
    ensures r.Err? && days != [] ==> r.failure == EmptyBucket
    ensures r.Ok? ==> |r.value| == MinNat(MaxTiles, |days|)
    ensures r.Ok? ==> forall i :: 0 <= i < |r.value| ==> Describes(r.value[i], days[i])
  {
    if days == [] then Err(NoForecastData)
    else
      match Tiles(days, MinNat(MaxTiles, |days|))
      case None => Err(EmptyBucket)
      case Some(ts) => Ok(ts)
  }

  /** A table built from a forecast feed never fails on an empty day, and
      shows the feed's first date first. */
  lemma WeeklyTableOfFeed(es: seq<ForecastEntry>)
    requires es != []
    ensures WeeklyTable(BucketByDay(es)).Ok?
    ensures WeeklyTable(BucketByDay(es)).value[0].date == KeyOf(es[0])
  {
    var days := BucketByDay(es);
    BucketsWellFormed(es);
    FirstBucketIsFirstDate(es);
    var t := Tiles(days, MinNat(MaxTiles, |days|));
    assert t.Some?;
    assert Describes(t.value[0], days[0]);
  }

  /** UTC wall-clock time, to the minute. */
  datatype Clock = Clock(hour: nat, minute: nat)

  /** `datetime.fromtimestamp(dt, timezone.utc)` truncated to hours and
      minutes: the seconds since midnight UTC lie in the minute it names. */
  function ClockOf(dt: int): (c: Clock)
    ensures c.hour < 24 && c.minute < 60
    ensures 0 <= dt % SecondsPerDay - (c.hour * 3600 + c.minute * 60) < 60
  {
    var sod := dt % SecondsPerDay;
    Clock(sod / 3600, (sod % 3600) / 60)
  }

  /** Only one clock reading fits a timestamp. */
  lemma ClockUnique(dt: int, c: Clock)
    requires c.hour < 24 && c.minute < 60
    requires 0 <= dt % SecondsPerDay - (c.hour * 3600 + c.minute * 60) < 60
    ensures ClockOf(dt) == c
  {
  }

  /** Three hours later the hour has moved on by three, modulo midnight, and
      the minute is the same. */
  lemma ThreeHoursLater(dt: int)
    ensures ClockOf(dt + StepSeconds) == Clock((ClockOf(dt).hour + 3) % 24, ClockOf(dt).minute)
  {
    var c := ClockOf(dt);
    var sod := dt % SecondsPerDay;
    var later := (dt + StepSeconds) % SecondsPerDay;
    if sod + StepSeconds < SecondsPerDay {
      assert later == sod + StepSeconds;
    } else {
      assert later == sod + StepSeconds - SecondsPerDay;
    }
    ClockUnique(dt + StepSeconds, Clock((c.hour + 3) % 24, c.minute));
  }

  /** `%H:%M`. */
  function FormatClock(c: Clock): (s: string)
    requires c.hour < 24 && c.minute < 60
    ensures |s| == 5 && s[2] == ':'
  {
    TwoDigits(c.hour) + ":" + TwoDigits(c.minute)
  }

  /** Reads an `HH:MM` text back. */
  function ParseClock(s: string): Option<Clock> {
    if |s| == 5 && s[2] == ':' && '0' <= s[0] <= '9' && '0' <= s[1] <= '9'
       && '0' <= s[3] <= '9' && '0' <= s[4] <= '9'
    then Some(Clock(ParseTwoDigits(s[..2]), ParseTwoDigits(s[3..])))
    else None
  }

  lemma ClockRoundTrip(c: Clock)
    requires c.hour < 24 && c.minute < 60
    ensures ParseClock(FormatClock(c)) == Some(c)
  {
    var s := FormatClock(c);
    assert s[..2] == TwoDigits(c.hour);
    assert s[3..] == TwoDigits(c.minute);
    TwoDigitsRoundTrip(c.hour);
    TwoDigitsRoundTrip(c.minute);
  }

  /** The time-range label of an hourly row: start and start plus three
      hours, both in UTC. */
  function HourRange(dt: int): string {
    FormatClock(ClockOf(dt)) + " - " + FormatClock(ClockOf(dt + StepSeconds))
  }

  /** The label reads back as the entry's UTC start time and an end time
      three hours later: end hour = (start hour + 3) mod 24, same minute. */
  lemma HourRangeReadsBack(dt: int)
    ensures |HourRange(dt)| == 13 && HourRange(dt)[5..8] == " - "
    ensures ParseClock(HourRange(dt)[..5]) == Some(ClockOf(dt))
    ensures ParseClock(HourRange(dt)[8..]) ==
      Some(Clock((ClockOf(dt).hour + 3) % 24, ClockOf(dt).minute))
  {
    var a := FormatClock(ClockOf(dt));
    var b := FormatClock(ClockOf(dt + StepSeconds));
    var s := HourRange(dt);
    assert s[..5] == a;
    assert s[8..] == b;
    ClockRoundTrip(ClockOf(dt));
    ClockRoundTrip(ClockOf(dt + StepSeconds));
    ThreeHoursLater(dt);
  }

  lemma AllHourRangesReadBack()
    ensures forall dt :: |HourRange(dt)| == 13 && ParseClock(HourRange(dt)[..5]) == Some(ClockOf(dt))
    ensures forall dt :: |HourRange(dt)| == 13 && ParseClock(HourRange(dt)[8..]) == Some(Clock((ClockOf(dt).hour + 3) % 24, ClockOf(dt).minute))
  {
    forall dt
      ensures |HourRange(dt)| == 13 && ParseClock(HourRange(dt)[..5]) == Some(ClockOf(dt))
      ensures ParseClock(HourRange(dt)[8..]) == Some(Clock((ClockOf(dt).hour + 3) % 24, ClockOf(dt).minute))
    {
      HourRangeReadsBack(dt);
    }
  }

  /** One hourly row: time range, icon asset, humidity and temperature. */
  datatype HourRow = HourRow(span: string, icon: string, humidity: int, temp: real)

  function RowOf(e: ForecastEntry): HourRow {
    HourRow(HourRange(e.dt), IconAsset(e.icon), e.humidity, e.temp)
  }

  /** `update_hourly_panel` for one day: row `i` shows entry `i`. A day with
      more entries than pre-built rows fails (`hour_rows[i]` out of range). */
  function HourlyPanel(entries: seq<ForecastEntry>): (r: Result<seq<HourRow>>)
    ensures r.Ok? <==> |entries| <= MaxRows
    ensures r.Err? ==> r.failure == TooManyRows
    ensures r.Ok? ==> |r.value| == |entries|
    ensures r.Ok? ==> forall i :: 0 <= i < |entries| ==>
      r.value[i].span == HourRange(entries[i].dt) &&
      |r.value[i].span| == 13 &&
      ParseClock(r.value[i].span[..5]) == Some(ClockOf(entries[i].dt)) &&
      ParseClock(r.value[i].span[8..]) ==
        Some(Clock((ClockOf(entries[i].dt).hour + 3) % 24, ClockOf(entries[i].dt).minute)) &&
      r.value[i].icon == IconAsset(entries[i].icon) &&
      r.value[i].temp == entries[i].temp && r.value[i].humidity == entries[i].humidity
  {
    if |entries| > MaxRows then Err(TooManyRows)
    else
      AllHourRangesReadBack();
      Ok(seq(|entries|, i requires 0 <= i < |entries| => RowOf(entries[i])))
  }

  /** `list(daily.keys())[0]`; `None` where the source raises on no days. */
  function DefaultDay(days: seq<DayBucket>): (r: Option<string>)
    ensures r.Some? <==> days != []
    ensures r.Some? ==> r.value == days[0].date && r.value in Dates(days)
  {
    if days == [] then None else Some(days[0].date)
  }

  /** `daily[date]`; `None` where the source raises `KeyError`. */
  function SelectDay(days: seq<DayBucket>, date: string): (r: Option<seq<ForecastEntry>>)
    ensures r.Some? <==> date in Dates(days)
    ensures r.Some? ==> exists i :: 0 <= i < |days| && days[i].date == date && days[i].entries == r.value
    decreases |days|
  {
    if days == [] then None
    else if days[0].date == date then Some(days[0].entries)
    else
      assert Dates(days) == [days[0].date] + Dates(days[1..]);
      match SelectDay(days[1..], date)
      case None => None
      case Some(es) =>
        assert exists i :: 0 <= i < |days| && days[i].date == date && days[i].entries == es by {
          var j :| 0 <= j < |days[1..]| && days[1..][j].date == date && days[1..][j].entries == es;
          assert days[j + 1] == days[1..][j];
        }
        Some(es)
  }

  /** On a fresh grouping of a feed the default day is the first entry's
      date, and selecting it gives exactly that date's entries in feed
      order. */
  lemma DefaultDayOfFeed(es: seq<ForecastEntry>)
    requires es != []
    ensures DefaultDay(BucketByDay(es)) == Some(KeyOf(es[0]))
    ensures SelectDay(BucketByDay(es), KeyOf(es[0])) == Some(Select(es, KeyOf(es[0])))
  {
    FirstBucketIsFirstDate(es);
    BucketsWellFormed(es);
    var days := BucketByDay(es);
    var r := SelectDay(days, KeyOf(es[0]));
    assert Dates(days)[0] == KeyOf(es[0]);
    var i :| 0 <= i < |days| && days[i].date == KeyOf(es[0]) && days[i].entries == r.value;
    assert Dates(days)[i] == Dates(days)[0];
  }
}
