/** The refresh cycle of the richer app (`LofiWeatherApp.update_weather`
    with `update_weekly_table` and `update_hourly_panel`): what the window
    shows after one refresh, given the current-weather report, the forecast
    feed and the random track pick. A fetch or step that fails raises in
    the source, and nothing in the app catches it: at start-up the window
    is never built, and from the hourly timer the exception escapes the
    slot. Here the refresh returns the window as it stands at that point
    together with the failure, which marks where the source stops, not a
    state the app goes on from. */
module App {
  import opened Results
  import opened Text
  import opened Forecast
  import opened DaySummary
  import opened Scene

  /** The fields of the current-weather reply the window uses. `dt`,
      `temp` and `description` only feed the header text, whose formatting
      is not modelled; the header keeps the whole report. */
  datatype Current = Current(dt: int, temp: real, condition: string, icon: string, description: string)

  /** The window's state: the header report, the scene and music player,
      the cached forecast buckets, the eight pre-built day tiles and the
      twenty-four pre-built hourly rows, each with its contents (`None`
      before first use) and whether it is visible. */
  datatype Window = Window(
    header: Option<Current>,
    scene: Option<SceneChoice>,
    player: Player,
    daily: seq<DayBucket>,
    tiles: seq<Option<DayTile>>,
    tileShown: seq<bool>,
    rows: seq<Option<HourRow>>,
    rowShown: seq<bool>)

  /** The widget lists have the sizes they are built with. */
  predicate WellShaped(w: Window) {
    |w.tiles| == MaxTiles && |w.tileShown| == MaxTiles && |w.rows| == MaxRows && |w.rowShown| == MaxRows
  }

  /** The window as built, before the first refresh: nothing filled in,
      every tile and row visible, no music. */
  function InitialWindow(): (w: Window)
    ensures WellShaped(w)
    ensures w.player.current.None? && w.daily == []
    ensures forall j :: 0 <= j < MaxTiles ==> w.tiles[j].None? && w.tileShown[j]
    ensures forall j :: 0 <= j < MaxRows ==> w.rows[j].None? && w.rowShown[j]
  {
    Window(None, None, Player(None), [],
      seq(MaxTiles, _ => None), seq(MaxTiles, _ => true),
      seq(MaxRows, _ => None), seq(MaxRows, _ => true))
  }

  /** Writes `filled` into the first widgets and leaves the others as they
      were. */
  function Overlay<T>(prior: seq<Option<T>>, filled: seq<T>): (r: seq<Option<T>>)
    requires |filled| <= |prior|
    ensures |r| == |prior|
    ensures forall i :: 0 <= i < |filled| ==> r[i] == Some(filled[i])
    ensures forall j :: |filled| <= j < |prior| ==> r[j] == prior[j]
  {
    seq(|prior|, j requires 0 <= j < |prior| => if j < |filled| then Some(filled[j]) else prior[j])
  }

  /** Visibility of `size` widgets of which the first `n` are in use. */
  function FirstVisible(size: nat, n: nat): (r: seq<bool>)
    ensures |r| == size
    ensures forall j :: 0 <= j < size ==> (r[j] <==> j < n)
  {
    seq(size, j requires 0 <= j < size => j < n)
  }

  /** The tile-hiding loop as written: tiles after the last one filled
      (index `last`) are hidden, and no tile is ever shown again. */
  function HideUnusedTilesAsWritten(shown: seq<bool>, last: nat): (r: seq<bool>)
    requires |shown| == MaxTiles
    ensures |r| == MaxTiles
    ensures forall j :: last < j < MaxTiles ==> !r[j]
    ensures forall j :: 0 <= j <= last && j < MaxTiles ==> r[j] == shown[j]
  {
    seq(MaxTiles, j requires 0 <= j < MaxTiles => if j <= last then shown[j] else false)
  }

  /** With the loop as written, visibility only ever goes from shown to
      hidden. */
  lemma AsWrittenNeverReshows(shown: seq<bool>, last: nat)
    requires |shown| == MaxTiles
    ensures forall j :: 0 <= j < MaxTiles && HideUnusedTilesAsWritten(shown, last)[j] ==> shown[j]
  {
  }

  /** A refresh with five days followed by one with six: the sixth tile is
      filled with the new day but stays hidden. */
  lemma FilledTileStaysHidden()
    ensures var afterFive := HideUnusedTilesAsWritten(seq(MaxTiles, _ => true), 4);
      var afterSix := HideUnusedTilesAsWritten(afterFive, 5);
      !afterSix[5]
    ensures FirstVisible(MaxTiles, 6)[5]
  {
    var afterFive := HideUnusedTilesAsWritten(seq(MaxTiles, _ => true), 4);
    assert !afterFive[5];
  }

  /** Tile visibility as intended: exactly the tiles in use are visible,
      whatever was visible before. */
  function TileVisibility(days: nat): (r: seq<bool>)
    ensures |r| == MaxTiles
    ensures forall j :: 0 <= j < MaxTiles ==> (r[j] <==> j < days)
  {
    FirstVisible(MaxTiles, days)
  }

  /** `update_weekly_table` on the cached buckets: the first (at most
      eight) tiles get the first days, exactly those tiles are visible,
      and the rest keep their old contents. */
  function WeeklyUpdate(w: Window): (r: Result<Window>)
    requires WellShaped(w)
    ensures r.Ok? <==> WeeklyTable(w.daily).Ok?
    ensures r.Err? ==> r.failure == WeeklyTable(w.daily).failure
    ensures r.Ok? ==>
      var n := MinNat(MaxTiles, |w.daily|);
      && WellShaped(r.value)
      && r.value == w.(tiles := r.value.tiles, tileShown := r.value.tileShown)
      && (forall j :: 0 <= j < n ==> r.value.tiles[j].Some? && Describes(r.value.tiles[j].value, w.daily[j]))
      && (forall j :: n <= j < MaxTiles ==> r.value.tiles[j] == w.tiles[j])
      && (forall j :: 0 <= j < MaxTiles ==> (r.value.tileShown[j] <==> j < |w.daily|))
  {
    match WeeklyTable(w.daily)
    case Err(f) => Err(f)
    case Ok(ts) => Ok(w.(tiles := Overlay(w.tiles, ts), tileShown := TileVisibility(|ts|)))
  }

  /** `update_hourly_panel(date)`: row `i` gets entry `i` of that day and
      exactly the rows in use are visible; an unknown date or a day longer
      than the panel fails. */
  function HourlyUpdate(w: Window, date: string): (r: Result<Window>)
    requires WellShaped(w)
    ensures r.Err? <==> SelectDay(w.daily, date).None? || |SelectDay(w.daily, date).value| > MaxRows
    ensures r.Err? ==> r.failure == (if SelectDay(w.daily, date).None? then UnknownDay else TooManyRows)
    ensures r.Ok? ==>
      var entries := SelectDay(w.daily, date).value;
      && WellShaped(r.value)
      && r.value == w.(rows := r.value.rows, rowShown := r.value.rowShown)
      && (forall i :: 0 <= i < |entries| ==>
            && r.value.rows[i].Some?
            && r.value.rows[i].value.span == HourRange(entries[i].dt)
            && r.value.rows[i].value.icon == IconAsset(entries[i].icon)
            && r.value.rows[i].value.temp == entries[i].temp
            && r.value.rows[i].value.humidity == entries[i].humidity
            && |r.value.rows[i].value.span| == 13
            && ParseClock(r.value.rows[i].value.span[..5]) == Some(ClockOf(entries[i].dt)))
      && (forall j :: |entries| <= j < MaxRows ==> r.value.rows[j] == w.rows[j])
      && (entries != [] ==> forall j :: 0 <= j < MaxRows ==> (r.value.rowShown[j] <==> j < |entries|))
      && (entries == [] ==> r.value == w)
  {
    match SelectDay(w.daily, date)
    case None => Err(UnknownDay)
    case Some(entries) =>
      match HourlyPanel(entries)
      case Err(f) => Err(f)
      case Ok(rows) =>
        if rows == [] then Ok(w)
        else Ok(w.(rows := Overlay(w.rows, rows), rowShown := FirstVisible(MaxRows, |rows|)))
  }

  /** What a refresh leaves: the window, and the failure that stopped it
      early, if any. */
  datatype Outcome = Outcome(window: Window, failure: Option<Failure>)

  /** The header and scene part of a refresh. */
  function ShowCurrent(w: Window, c: Current, pick: nat): (r: Window)
    requires WellShaped(w) && pick < TracksPerCategory
    ensures WellShaped(r)
    ensures r.header == Some(c)
    ensures r.scene == Some(ChooseScene(c.condition, c.icon, pick))
    ensures r.player.current == Some(r.scene.value.track)
    ensures r.daily == w.daily && r.tiles == w.tiles && r.tileShown == w.tileShown
    ensures r.rows == w.rows && r.rowShown == w.rowShown
  {
    var u := SetScene(w.player, Lower(c.condition), c.icon, pick);
    LowerIdempotent(c.condition);
    w.(header := Some(c), scene := Some(u.scene), player := u.player)
  }

  /** `update_weather`: show the current report and set the scene, then
      fetch and group the forecast, fill the weekly tiles, and show the
      first day in the hourly panel. The scene is set before the forecast
      is fetched, so a forecast failure still changes the scene. */
  function Refresh(w: Window, current: Result<Current>, forecast: Result<seq<ForecastEntry>>, pick: nat): (r: Outcome)
    requires WellShaped(w) && pick < TracksPerCategory
    ensures WellShaped(r.window)
    ensures current.Err? ==> r == Outcome(w, Some(current.failure))
    ensures current.Ok? ==> r.window.header == Some(current.value)
    ensures current.Ok? ==> r.window.scene == Some(ChooseScene(current.value.condition, current.value.icon, pick))
    ensures current.Ok? ==> r.window.player == SetScene(w.player, current.value.condition, current.value.icon, pick).player
    ensures current.Ok? && forecast.Err? ==>
      && r.failure == Some(forecast.failure)
      && r.window.daily == w.daily
      && r.window.tiles == w.tiles && r.window.tileShown == w.tileShown
      && r.window.rows == w.rows && r.window.rowShown == w.rowShown
    ensures current.Ok? && forecast.Ok? ==> IsGrouping(forecast.value, r.window.daily)
    ensures current.Ok? && forecast == Ok([]) ==>
      && r.failure == Some(NoForecastData)
      && r.window.tiles == w.tiles && r.window.tileShown == w.tileShown
      && r.window.rows == w.rows && r.window.rowShown == w.rowShown
  {
    match current
    case Err(f) => Outcome(w, Some(f))
    case Ok(c) =>
      var w1 := ShowCurrent(w, c, pick);
      LowerIdempotent(c.condition);
      match forecast
      case Err(f) => Outcome(w1, Some(f))
      case Ok(es) =>
        var w2 := w1.(daily := BucketByDay(es));
        match WeeklyUpdate(w2)
        case Err(f) => Outcome(w2, Some(f))
        case Ok(w3) =>
          match DefaultDay(w3.daily)
          case None => Outcome(w3, Some(NoForecastData))
          case Some(first) =>
            match HourlyUpdate(w3, first)
            case Err(f) => Outcome(w3, Some(f))
            case Ok(w4) => Outcome(w4, None)
  }

  /** After a refresh with a non-empty forecast the cached days are the
      feed's grouping, the tiles describe the first (at most eight) days in
      date order, and exactly those tiles are visible. */
  lemma RefreshFillsTiles(w: Window, c: Current, es: seq<ForecastEntry>, pick: nat)
    requires WellShaped(w) && pick < TracksPerCategory && es != []
    ensures var r := Refresh(w, Ok(c), Ok(es), pick);
      var days := r.window.daily;
      && days == BucketByDay(es)
      && days[0].date == KeyOf(es[0])
      && (forall j :: 0 <= j < MinNat(MaxTiles, |days|) ==>
            r.window.tiles[j].Some? && Describes(r.window.tiles[j].value, days[j]))
      && (forall j :: 0 <= j < MaxTiles ==> (r.window.tileShown[j] <==> j < |days|))
  {
    var w2 := ShowCurrent(w, c, pick).(daily := BucketByDay(es));
    WeeklyTableOfFeed(es);
    DefaultDayOfFeed(es);
    var w3 := WeeklyUpdate(w2).value;
    var h := HourlyUpdate(w3, KeyOf(es[0]));
    var r := Refresh(w, Ok(c), Ok(es), pick);
    assert r == (if h.Ok? then Outcome(h.value, None) else Outcome(w3, Some(h.failure)));
    FirstBucketIsFirstDate(es);
    assert r.window.daily == w3.daily && r.window.tiles == w3.tiles && r.window.tileShown == w3.tileShown;
  }

  /** After a refresh with a non-empty forecast the hourly panel shows the
      feed's first date, entry by entry, with exactly those rows visible,
      unless that date has more entries than the panel has rows. */
  lemma RefreshShowsFirstDay(w: Window, c: Current, es: seq<ForecastEntry>, pick: nat)
    requires WellShaped(w) && pick < TracksPerCategory && es != []
    ensures var r := Refresh(w, Ok(c), Ok(es), pick);
      var first := Select(es, KeyOf(es[0]));
      && (|first| <= MaxRows <==> r.failure.None?)
      && (|first| > MaxRows ==> r.failure == Some(TooManyRows))
      && (|first| <= MaxRows ==>
            && (forall i :: 0 <= i < |first| ==>
                  r.window.rows[i].Some? && r.window.rows[i].value.temp == first[i].temp
                  && r.window.rows[i].value.icon == IconAsset(first[i].icon)
                  && r.window.rows[i].value.span == HourRange(first[i].dt)
                  && r.window.rows[i].value.humidity == first[i].humidity)
            && (forall j :: |first| <= j < MaxRows ==> r.window.rows[j] == w.rows[j])
            && (forall j :: 0 <= j < MaxRows ==> (r.window.rowShown[j] <==> j < |first|)))
  {
    var w2 := ShowCurrent(w, c, pick).(daily := BucketByDay(es));
    WeeklyTableOfFeed(es);
    DefaultDayOfFeed(es);
    var w3 := WeeklyUpdate(w2).value;
    var h := HourlyUpdate(w3, KeyOf(es[0]));
    var r := Refresh(w, Ok(c), Ok(es), pick);
    assert r == (if h.Ok? then Outcome(h.value, None) else Outcome(w3, Some(h.failure)));
    assert SelectDay(w3.daily, KeyOf(es[0])) == Some(Select(es, KeyOf(es[0])));
  }
}
