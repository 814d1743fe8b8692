/** Scene selection of the richer app (`LofiWeatherApp.set_scene` and the
    `MUSIC_MAP` table): a weather condition and an icon code decide the
    background picture, the animated foreground effect, the music category
    and one track of that category; the track is only reloaded when it
    differs from the one playing. Asset names are relative to the app's
    asset directory. */
module Scene {
  import opened Text
  import opened Results

  /** Condition to background root name (`condition_map`). */
  const ConditionMap: map<string, string> := map[
    "clear" := "clear",
    "clouds" := "clouds",
    "rain" := "rain",
    "drizzle" := "drizzle",
    "thunderstorm" := "thunderstorm",
    "snow" := "snow",
    "mist" := "fog",
    "fog" := "fog",
    "haze" := "fog",
    "smoke" := "smoke",
    "dust" := "dust",
    "sand" := "dust",
    "ash" := "smoke",
    "squall" := "squall",
    "tornado" := "tornado"
  ]

  /** Music category to the file-name stem of its tracks. */
  const TrackStem: map<string, string> := map[
    "clear" := "clear",
    "clouds" := "clouds",
    "rain" := "rain",
    "drizzle" := "drizzle",
    "thunderstorm" := "thunder",
    "snow" := "snow",
    "squall" := "squall",
    "atmosphere" := "atmo"
  ]

  /** The four tracks `music/<stem>1.mp3` to `music/<stem>4.mp3`. */
  function Tracks(stem: string): (ts: seq<string>)
    ensures |ts| == 4
    ensures forall i :: 0 <= i < |ts| ==> ts[i] == "music/" + stem + [(i + '1' as int) as char] + ".mp3"
    ensures forall i :: 0 <= i < |ts| ==> |ts[i]| == |stem| + 11 && ts[i][6..|ts[i]| - 5] == stem
  {
    var t := (d: string) => "music/" + stem + d + ".mp3";
    [t("1"), t("2"), t("3"), t("4")]
  }

  /** Music category to its track list (`MUSIC_MAP`). */
  const MusicMap: map<string, seq<string>> := map[
    "clear" := Tracks("clear"),
    "clouds" := Tracks("clouds"),
    "rain" := Tracks("rain"),
    "drizzle" := Tracks("drizzle"),
    "thunderstorm" := Tracks("thunder"),
    "snow" := Tracks("snow"),
    "squall" := Tracks("squall"),
    "atmosphere" := Tracks("atmo")
  ]

  /** Each category's list is built from its stem. */
  lemma MusicMapFollowsStems(k: string)
    requires k in MusicMap
    ensures k in TrackStem && MusicMap[k] == Tracks(TrackStem[k])
  {
  }

  /** Every category lists this many tracks. */
  const TracksPerCategory := 4

  /** `condition_map.get(condition, "clear")`. */
  function BackgroundRoot(condition: string): string {
    if condition in ConditionMap then ConditionMap[condition] else "clear"
  }

  /** "n" when the icon code ends in 'n', "d" for anything else, including
      an empty or malformed code. */
  function DayNight(icon: string): string {
    if EndsWithChar(icon, 'n') then "n" else "d"
  }

  /** `{root}_{d|n}`. */
  function BackgroundKey(condition: string, icon: string): string {
    BackgroundRoot(condition) + "_" + DayNight(icon)
  }

  /** The foreground effect chosen by the if/elif chain. */
  function Effect(condition: string): Option<string> {
    if condition in ["rain", "drizzle"] then Some("effects/rain.gif")
    else if condition == "thunderstorm" then Some("effects/thunder.gif")
    else if condition == "snow" then Some("effects/snow.gif")
    else if condition == "squall" then Some("effects/squall.gif")
    else if condition in ["mist", "fog", "haze"] then Some("effects/fog.gif")
    else if condition in ["smoke", "dust", "ash", "sand"] then Some("effects/dust.gif")
    else None
  }

  /** The music key chosen by the same if/elif chain. */
  function MusicKey(condition: string): string {
    if condition in ["rain", "drizzle"] then (if condition == "rain" then "rain" else "drizzle")
    else if condition == "thunderstorm" then "thunderstorm"
    else if condition == "snow" then "snow"
    else if condition == "squall" then "squall"
    else if condition in ["mist", "fog", "haze"] then "atmosphere"
    else if condition in ["smoke", "dust", "ash", "sand"] then "atmosphere"
    else if condition == "clouds" then "clouds"
    else "clear"
  }

  /** Reference definitions by background category: what the effect and the
      music should be for each root name. */
  function EffectForRoot(root: string): Option<string> {
    if root in ["rain", "drizzle"] then Some("effects/rain.gif")
    else if root == "thunderstorm" then Some("effects/thunder.gif")
    else if root == "snow" then Some("effects/snow.gif")
    else if root == "squall" then Some("effects/squall.gif")
    else if root == "fog" then Some("effects/fog.gif")
    else if root in ["smoke", "dust"] then Some("effects/dust.gif")
    else None
  }

  function MusicForRoot(root: string): string {
    if root in ["rain", "drizzle", "thunderstorm", "snow", "squall", "clouds"] then root
    else if root in ["fog", "smoke", "dust"] then "atmosphere"
    else "clear"
  }

  /** The condition-by-condition chain agrees with the category table: the
      effect and the music depend on the condition only through its
      background category, so a condition the table does not know gets the
      clear scene. */
  lemma EffectFollowsRoot(condition: string)
    ensures Effect(condition) == EffectForRoot(BackgroundRoot(condition))
  {
  }

  lemma MusicFollowsRoot(condition: string)
    ensures MusicKey(condition) == MusicForRoot(BackgroundRoot(condition))
  {
    if condition in ["rain", "drizzle", "thunderstorm", "snow", "squall", "clouds"] {
      assert BackgroundRoot(condition) == condition;
    } else if condition in ["mist", "fog", "haze", "smoke", "dust", "ash", "sand"] {
      assert BackgroundRoot(condition) in ["fog", "smoke", "dust"];
    } else {
      assert BackgroundRoot(condition) in ["clear", "tornado"];
    }
  }

  /** The background key is the root, an underscore and the day/night
      letter; the letter is 'n' exactly when the icon code ends in 'n'. */
  lemma BackgroundKeyShape(condition: string, icon: string)
    ensures var k := BackgroundKey(condition, icon);
      && |k| >= 2 && k[|k| - 2] == '_'
      && k[..|k| - 2] == BackgroundRoot(condition)
      && (k[|k| - 1] == 'n' <==> EndsWithChar(icon, 'n'))
      && (k[|k| - 1] == 'd' <==> !EndsWithChar(icon, 'n'))
  {
    var k := BackgroundKey(condition, icon);
    assert k[..|k| - 2] == BackgroundRoot(condition);
  }

  /** Roots: mist/fog/haze share "fog", sand goes with "dust", ash with
      "smoke", every other listed condition is its own root, and anything
      unlisted falls back to "clear". */
  lemma BackgroundRootTable(condition: string)
    ensures condition in ["mist", "fog", "haze"] <==> BackgroundRoot(condition) == "fog"
    ensures condition in ["dust", "sand"] <==> BackgroundRoot(condition) == "dust"
    ensures condition in ["smoke", "ash"] <==> BackgroundRoot(condition) == "smoke"
    ensures condition in ["clear", "clouds", "rain", "drizzle", "thunderstorm", "snow", "squall", "tornado"]
      ==> BackgroundRoot(condition) == condition
    ensures condition !in ConditionMap ==> BackgroundRoot(condition) == "clear"
  {
  }

  /** The foreground effect table, one line per effect. */
  lemma EffectTable(condition: string)
    ensures Effect(condition) == Some("effects/rain.gif") <==> condition in ["rain", "drizzle"]
    ensures Effect(condition) == Some("effects/thunder.gif") <==> condition == "thunderstorm"
    ensures Effect(condition) == Some("effects/snow.gif") <==> condition == "snow"
    ensures Effect(condition) == Some("effects/squall.gif") <==> condition == "squall"
    ensures Effect(condition) == Some("effects/fog.gif") <==> condition in ["mist", "fog", "haze"]
    ensures Effect(condition) == Some("effects/dust.gif") <==> condition in ["smoke", "dust", "ash", "sand"]
    ensures Effect(condition) == None <==> BackgroundRoot(condition) in ["clear", "clouds", "tornado"]
  {
  }

  /** The music table: fog and dust conditions share "atmosphere", clouds
      has its own, and everything else not named (tornado and unknown
      conditions included) plays "clear". The key always names a list. */
  lemma MusicTable(condition: string)
    ensures MusicKey(condition) in MusicMap
    ensures MusicKey(condition) == "atmosphere" <==> condition in ["mist", "fog", "haze", "smoke", "dust", "ash", "sand"]
    ensures MusicKey(condition) == "clouds" <==> condition == "clouds"
    ensures MusicKey(condition) == "clear" <==>
      condition !in ["rain", "drizzle", "thunderstorm", "snow", "squall", "clouds",
                     "mist", "fog", "haze", "smoke", "dust", "ash", "sand"]
    ensures condition in ["rain", "drizzle", "thunderstorm", "snow", "squall"] ==> MusicKey(condition) == condition
  {
  }

  /** The chosen picture, effect, music category and track. */
  datatype SceneChoice = SceneChoice(background: string, effect: Option<string>, music: string, track: string)

  /** The scene for a condition and icon; `pick` is the index `random.choice`
      draws from the category's track list. The condition is lower-cased
      first, as the source does. */
  function ChooseScene(condition: string, icon: string, pick: nat): (s: SceneChoice)
    requires pick < TracksPerCategory
    ensures s.background == "backgrounds/" + BackgroundKey(Lower(condition), icon) + ".jpg"
    ensures s.music in MusicMap && s.track in MusicMap[s.music]
    ensures s.effect == EffectForRoot(BackgroundRoot(Lower(condition)))
    ensures s.music == MusicForRoot(BackgroundRoot(Lower(condition)))
  {
    var c := Lower(condition);
    MusicTable(c);
    EffectFollowsRoot(c);
    MusicFollowsRoot(c);
    var key := MusicKey(c);
    SceneChoice("backgrounds/" + BackgroundKey(c, icon) + ".jpg", Effect(c), key, MusicMap[key][pick])
  }

  /** Every track of the category can come out of the random pick, and
      nothing else can. */
  lemma TrackChoiceCoversCategory(condition: string, icon: string, track: string)
    ensures track in MusicMap[MusicKey(Lower(condition))] <==>
      exists pick :: 0 <= pick < TracksPerCategory && ChooseScene(condition, icon, pick).track == track
  {
    MusicTable(Lower(condition));
    var list := MusicMap[MusicKey(Lower(condition))];
    if track in list {
      var i :| 0 <= i < |list| && list[i] == track;
      assert ChooseScene(condition, icon, i).track == track;
    }
  }

  /** Rain by day: rain background, rain effect, rain music. */
  lemma RainDayExample()
    ensures BackgroundKey("rain", "10d") == "rain_d"
    ensures Effect("rain") == Some("effects/rain.gif") && MusicKey("rain") == "rain"
  {
  }

  /** Snow by night: the night variant of the snow background. */
  lemma SnowNightExample()
    ensures BackgroundKey("snow", "13n") == "snow_n"
    ensures Effect("snow") == Some("effects/snow.gif") && MusicKey("snow") == "snow"
  {
  }

  /** Clear by day: no foreground effect. */
  lemma ClearDayExample()
    ensures BackgroundKey("clear", "01d") == "clear_d"
    ensures Effect("clear") == None && MusicKey("clear") == "clear"
  {
  }

  /** A condition outside the table gets the clear scene, by day or by
      night. */
  lemma UnknownConditionGetsClearScene(condition: string, icon: string, pick: nat)
    requires pick < TracksPerCategory && Lower(condition) !in ConditionMap
    ensures ChooseScene(condition, icon, pick).background == "backgrounds/clear_" + DayNight(icon) + ".jpg"
    ensures ChooseScene(condition, icon, pick).effect == None
    ensures ChooseScene(condition, icon, pick).music == "clear"
  {
  }

  /** The condition is compared in lower case: conditions that differ only
      in upper/lower case get the same scene. */
  lemma ChooseSceneIgnoresCase(c1: string, c2: string, icon: string, pick: nat)
    requires pick < TracksPerCategory && Lower(c1) == Lower(c2)
    ensures ChooseScene(c1, icon, pick) == ChooseScene(c2, icon, pick)
  {
  }

  /** Different categories use different file-name stems. */
  lemma TrackStemsDistinct(k1: string, k2: string)
    requires k1 in TrackStem && k2 in TrackStem && k1 != k2
    ensures TrackStem[k1] != TrackStem[k2]
  {
  }

  /** No track belongs to two categories. */
  lemma TrackListsDisjoint(k1: string, k2: string, t: string)
    requires k1 in MusicMap && k2 in MusicMap && k1 != k2
    ensures !(t in MusicMap[k1] && t in MusicMap[k2])
  {
    if t in MusicMap[k1] && t in MusicMap[k2] {
      MusicMapFollowsStems(k1);
      MusicMapFollowsStems(k2);
      TrackStemsDistinct(k1, k2);
    }
  }

  /** The music player: the track last loaded, if any (`self.music`). */
  datatype Player = Player(current: Option<string>)

  datatype PlayStep = PlayStep(player: Player, reloaded: bool)

  /** `if self.music != path: load, play, remember`. */
  function PlayTrack(p: Player, path: string): (r: PlayStep)
    ensures r.player.current == Some(path)
    ensures r.reloaded <==> p.current != Some(path)
    ensures !r.reloaded ==> r.player == p
  {
    if p.current != Some(path) then PlayStep(Player(Some(path)), true) else PlayStep(p, false)
  }

  /** Asking for the same track again does nothing. */
  lemma PlayTrackIdempotent(p: Player, path: string)
    ensures PlayTrack(PlayTrack(p, path).player, path) == PlayStep(PlayTrack(p, path).player, false)
  {
  }

  /** A change of music category always restarts playback, because the
      category lists share no track. */
  lemma CategoryChangeReloads(p: Player, k1: string, k2: string, path: string)
    requires k1 in MusicMap && k2 in MusicMap && k1 != k2
    requires p.current.Some? && p.current.value in MusicMap[k1]
    requires path in MusicMap[k2]
    ensures PlayTrack(p, path).reloaded
  {
    TrackListsDisjoint(k1, k2, path);
  }

  /** The result of `set_scene`: the scene and the player after it. */
  datatype SceneUpdate = SceneUpdate(scene: SceneChoice, player: Player, reloaded: bool)

  /** `set_scene(condition, icon)`: pick the scene, then reload the music
      only when the chosen track differs from the one playing. */
  function SetScene(p: Player, condition: string, icon: string, pick: nat): (u: SceneUpdate)
    requires pick < TracksPerCategory
    ensures u.scene == ChooseScene(condition, icon, pick)
    ensures u.player.current == Some(u.scene.track)
    ensures u.reloaded <==> p.current != Some(u.scene.track)
    ensures !u.reloaded ==> u.player == p
    ensures u.scene.music in MusicMap && u.scene.track in MusicMap[u.scene.music]
  {
    var s := ChooseScene(condition, icon, pick);
    var step := PlayTrack(p, s.track);
    SceneUpdate(s, step.player, step.reloaded)
  }
}
