/** City search and location lookup against the geocoding service: the
    search box's text becomes a list of dropdown labels (`list_cities`),
    and a city name becomes the coordinates of its first match
    (`OpenWeatherClient.set_location`). The service itself is a parameter:
    a function from the query text and the result limit to the hits it
    returns, in the service's order. */
module Search {
  import opened Text
  import opened Results

  /** One geocoding hit; a field the service leaves out reads as "". */
  datatype GeoHit = GeoHit(name: string, state: string, country: string, lat: real, lon: real)

  /** The geocoding service. */
  type Geocoder = (string, nat) -> seq<GeoHit>

  /** Hits requested by the search box, and by the location lookup. */
  const SearchLimit: nat := 10
  const LookupLimit: nat := 1

  /** The label fields of a hit: the state only when it is non-empty. */
  function LabelFields(h: GeoHit): (fs: seq<string>)
    ensures |fs| == (if h.state == "" then 2 else 3)
    ensures fs[0] == h.name && fs[|fs| - 1] == h.country
  {
    if h.state != "" then [h.name, h.state, h.country] else [h.name, h.country]
  }

  /** "name, state, country", or "name, country" without a state. */
  function Label(h: GeoHit): string {
    JoinFields(LabelFields(h))
  }

  /** A label reads back into its fields, provided no field holds a comma:
      the state shows up exactly when it is non-empty. */
  lemma LabelReadsBack(h: GeoHit)
    requires NoComma(h.name) && NoComma(h.state) && NoComma(h.country)
    ensures h.state != "" ==> SplitFields(Label(h)) == [h.name, h.state, h.country]
    ensures h.state == "" ==> SplitFields(Label(h)) == [h.name, h.country]
  {
    SplitJoinRoundTrip(LabelFields(h));
  }

  /** The labels of a list of hits, in the same order. */
  function Labels(hits: seq<GeoHit>): (ls: seq<string>)
    ensures |ls| == |hits|
    ensures forall i :: 0 <= i < |hits| ==> ls[i] == Label(hits[i])
  {
    if hits == [] then [] else [Label(hits[0])] + Labels(hits[1..])
  }

  /** What the dropdown holds after a search: the labels, the hits kept
      for the later selection, and the text left in the edit box. */
  datatype Dropdown = Dropdown(items: seq<string>, hits: seq<GeoHit>, editText: string)

  /** `list_cities`: a blank query is refused before the service is asked;
      an empty answer is refused; otherwise every hit gets a label, in the
      service's order, and the stripped query stays in the edit box. */
  function ListCities(typed: string, geocode: Geocoder): (r: Result<Dropdown>)
    ensures r == Err(EmptyQuery) <==> AllSpace(typed)
    ensures r == Err(NoMatches) <==> !AllSpace(typed) && geocode(Strip(typed), SearchLimit) == []
    ensures r.Err? ==> r.failure == EmptyQuery || r.failure == NoMatches
    ensures r.Ok? ==>
      var hits := geocode(Strip(typed), SearchLimit);
      && hits != []
      && r.value.hits == hits
      && r.value.editText == Strip(typed)
      && |r.value.items| == |hits|
      && forall i :: 0 <= i < |hits| ==> r.value.items[i] == Label(hits[i])
  {
    var city := Strip(typed);
    StripEmptyIff(typed);
    if city == [] then Err(EmptyQuery)
    else
      var hits := geocode(city, SearchLimit);
      if hits == [] then Err(NoMatches)
      else
        Ok(Dropdown(Labels(hits), hits, city))
  }

  /** A blank query never reaches the service: the outcome is the same
      whatever the service would have answered. */
  lemma BlankQueryNeverLooksUp(typed: string, g1: Geocoder, g2: Geocoder)
    requires AllSpace(typed)
    ensures ListCities(typed, g1) == ListCities(typed, g2) == Err(EmptyQuery)
  {
  }

  /** Surrounding white space does not change the search. */
  lemma ListCitiesIgnoresPadding(typed: string, geocode: Geocoder)
    ensures ListCities(Strip(typed), geocode) == ListCities(typed, geocode)
  {
    StripIdempotent(typed);
    StripEmptyIff(typed);
    StripEmptyIff(Strip(typed));
  }

  /** A point on the globe. */
  datatype Location = Location(lat: real, lon: real)

  /** `set_location`: ask for one hit; none is a "not found" error,
      otherwise the first hit's coordinates. The name is sent as given. */
  function SetLocation(city: string, geocode: Geocoder): (r: Result<Location>)
    ensures r.Err? <==> geocode(city, LookupLimit) == []
    ensures r.Err? ==> r.failure == NotFound
    ensures r.Ok? ==>
      var hit := geocode(city, LookupLimit)[0];
      r.value.lat == hit.lat && r.value.lon == hit.lon
  {
    var data := geocode(city, LookupLimit);
    if data == [] then Err(NotFound) else Ok(Location(data[0].lat, data[0].lon))
  }

  /** Only the first hit matters: two answers that start with the same hit
      give the same location. */
  lemma SetLocationUsesFirstHit(city: string, g1: Geocoder, g2: Geocoder)
    requires g1(city, LookupLimit) != [] && g2(city, LookupLimit) != []
    requires g1(city, LookupLimit)[0] == g2(city, LookupLimit)[0]
    ensures SetLocation(city, g1) == SetLocation(city, g2)
  {
  }
}
