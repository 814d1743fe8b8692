/** The first, single-window version of the app (`main.py`): the current
    weather of one configured city picks one of four scenes by substring
    tests on the lower-cased condition, and each scene pairs a background
    picture with a music file of the same name. */
module Legacy {
  import opened Text
  import opened Results

  /** The four scenes, in the priority order of the tests. */
  datatype Category = Rain | Snow | Clear | Night

  /** The file stem a category uses for both its picture and its music. */
  function Stem(c: Category): string {
    match c
    case Rain => "rain"
    case Snow => "snow"
    case Clear => "clear"
    case Night => "night"
  }

  /** The substring tests of `set_scene`: "rain" wins over "snow", which
      wins over "clear"; anything else is night. */
  function Classify(condition: string): (c: Category)
    ensures c == Rain <==> Contains(condition, "rain")
    ensures c == Snow <==> !Contains(condition, "rain") && Contains(condition, "snow")
    ensures c == Clear <==>
      !Contains(condition, "rain") && !Contains(condition, "snow") && Contains(condition, "clear")
    ensures c == Night <==>
      !Contains(condition, "rain") && !Contains(condition, "snow") && !Contains(condition, "clear")
  {
    if Contains(condition, "rain") then Rain
    else if Contains(condition, "snow") then Snow
    else if Contains(condition, "clear") then Clear
    else Night
  }

  /** The classification in terms of positions: a category wins when its
      word occurs somewhere in the condition and no word of higher
      priority does. */
  lemma ClassifyByOccurrence(condition: string)
    ensures Classify(condition) == Rain <==> exists i :: OccursAt(condition, "rain", i)
    ensures Classify(condition) == Snow <==>
      (forall i :: !OccursAt(condition, "rain", i)) && exists i :: OccursAt(condition, "snow", i)
    ensures Classify(condition) == Night <==>
      forall i :: !OccursAt(condition, "rain", i) && !OccursAt(condition, "snow", i) && !OccursAt(condition, "clear", i)
  {
    ContainsIff(condition, "rain");
    ContainsIff(condition, "snow");
    ContainsIff(condition, "clear");
  }

  /** A background picture and the music that goes with it. */
  datatype LegacyScene = LegacyScene(background: string, music: string)

  const BackgroundDir := "assets/bgs/"
  const MusicDir := "assets/music/"

  /** `set_scene(condition)`. */
  function SetScene(condition: string): (s: LegacyScene)
    ensures s == LegacyScene(BackgroundDir + Stem(Classify(condition)) + ".jpg",
                             MusicDir + Stem(Classify(condition)) + ".mp3")
    ensures |s.background| > |BackgroundDir| + 4 && |s.music| > |MusicDir| + 4
    ensures s.background[..|BackgroundDir|] == BackgroundDir
    ensures s.music[..|MusicDir|] == MusicDir
    ensures s.background[|BackgroundDir|..|s.background| - 4] == Stem(Classify(condition))
    ensures s.music[|MusicDir|..|s.music| - 4] == Stem(Classify(condition))
  {
    var stem := Stem(Classify(condition));
    var bg := BackgroundDir + stem + ".jpg";
    var music := MusicDir + stem + ".mp3";
    assert bg[|BackgroundDir|..|bg| - 4] == stem;
    assert music[|MusicDir|..|music| - 4] == stem;
    LegacyScene(bg, music)
  }

  /** Picture and music always belong to the same scene, and two conditions
      get the same scene exactly when they fall in the same category. */
  lemma SceneMatchesMusic(c1: string, c2: string)
    ensures SetScene(c1).background[|BackgroundDir|..|SetScene(c1).background| - 4]
         == SetScene(c1).music[|MusicDir|..|SetScene(c1).music| - 4]
    ensures SetScene(c1) == SetScene(c2) <==> Classify(c1) == Classify(c2)
  {
    if SetScene(c1) == SetScene(c2) {
      assert Stem(Classify(c1)) == Stem(Classify(c2));
    }
  }

  /** "rain" anywhere takes precedence over "snow" and "clear". */
  lemma RainTakesPrecedence(prefix: string, suffix: string)
    ensures Classify(prefix + "rain" + suffix) == Rain
  {
    var s := prefix + "rain" + suffix;
    assert OccursAt(s, "rain", |prefix|);
    ContainsIff(s, "rain");
  }

  /** The current-weather report. `description` and `temp` only feed the
      information label, whose text is not modelled. */
  datatype Report = Report(condition: string, description: string, temp: real)

  /** The legacy window: its scene (none before the first successful
      fetch) and how many times a music file has been loaded and started. */
  datatype LegacyState = LegacyState(scene: Option<LegacyScene>, musicLoads: nat)

  /** `update_weather`: a failed fetch (`None`, or an empty reply) returns
      before anything changes; otherwise the lower-cased condition picks
      the scene, and the music is loaded and started again every time,
      even when it is the same file. */
  function UpdateWeather(st: LegacyState, fetched: Option<Report>): (r: LegacyState)
    ensures fetched.None? ==> r == st
    ensures fetched.Some? ==> r == LegacyState(Some(SetScene(Lower(fetched.value.condition))), st.musicLoads + 1)
    ensures fetched.Some? ==>
      && r.scene.Some?
      && |r.scene.value.background| > |BackgroundDir| + 4
      && |r.scene.value.music| > |MusicDir| + 4
      && r.scene.value.background[|BackgroundDir|..|r.scene.value.background| - 4]
           == Stem(Classify(Lower(fetched.value.condition)))
      && r.scene.value.music[|MusicDir|..|r.scene.value.music| - 4]
           == Stem(Classify(Lower(fetched.value.condition)))
      && r.musicLoads == st.musicLoads + 1
  {
    match fetched
    case None => st
    case Some(report) => LegacyState(Some(SetScene(Lower(report.condition))), st.musicLoads + 1)
  }

  /** What each call does to the music: two successful fetches with the
      same condition leave the same scene but restart the music twice,
      since this version has no "only if changed" test. The program itself
      calls `update_weather` once, from its constructor, and schedules no
      further refresh, so the second call is hypothetical. */
  lemma RepeatedFetchReplays(st: LegacyState, report: Report)
    ensures var once := UpdateWeather(st, Some(report));
      var twice := UpdateWeather(once, Some(report));
      twice.scene == once.scene && twice.musicLoads == st.musicLoads + 2
  {
  }

  /** Case does not matter to the scene: the condition is lowered first. */
  lemma UpdateIgnoresCase(st: LegacyState, r1: Report, r2: Report)
    requires Lower(r1.condition) == Lower(r2.condition)
    ensures UpdateWeather(st, Some(r1)) == UpdateWeather(st, Some(r2))
  {
  }
}
