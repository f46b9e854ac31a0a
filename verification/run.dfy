/** One press of the start button: the weather guard, the mode dispatch,
    the empty-result guard, the collection of track URIs and the optional
    playlist request.  Rendering is not modelled; the outcome records where
    the run stopped and what it hands on. */
module Run {
  import opened Types
  import opened Mood
  import opened TempoFilter
  import opened Recommend

  /** The arguments of the playlist-creation call. */
  datatype PlaylistRequest = PlaylistRequest(city: string, uris: seq<string>)

  /** Where a run ends. */
  datatype Outcome =
    | WeatherNotFound                   // the error message, then the run stops
    | MalformedWeather                  // the reply lacks fields the success message reads: the script raises
    | NoResults                         // the warning, then the run stops
    | Shown(tracks: seq<Track>, uris: seq<string>, playlist: Option<PlaylistRequest>)

  /** The guard: a reply is present and its status equals the number 200.
      A run never passes without a reply, nor with a textual status. */
  predicate WeatherFound(weather: Option<Weather>): (found: bool)
    ensures found ==> weather.Some? && weather.value.cod.Some?
    ensures found ==> !weather.value.cod.value.JStr?
  {
    weather.Some? && weather.value.cod == Some(JNum(200.0))
  }

  /** The fields the success message reads: a first condition and a
      temperature.  A displayable reply has a category to look up. */
  predicate Displayable(w: Weather): (ok: bool)
    ensures ok ==> |w.conditions| > 0
  {
    |w.conditions| > 0 && w.temperature.Some?
  }

  /** The guard stops a missing reply, the service's "not found" reply (whose
      status is the string "404") and a status that is a string "200"; it
      lets a numeric 200 through. */
  lemma GuardCases(conditions: seq<Condition>, temperature: Option<real>)
    ensures !WeatherFound(None)
    ensures !WeatherFound(Some(Weather(Some(JStr("404")), conditions, temperature)))
    ensures !WeatherFound(Some(Weather(Some(JStr("200")), conditions, temperature)))
    ensures !WeatherFound(Some(Weather(None, conditions, temperature)))
    ensures WeatherFound(Some(Weather(Some(JNum(200.0)), conditions, temperature)))
  {
  }

  /** Collects the URIs of the displayed tracks, one per track, in order. */
  method CollectUris(tracks: seq<Track>) returns (uris: seq<string>)
    ensures |uris| == |tracks|
    ensures forall i :: 0 <= i < |tracks| ==> uris[i] == tracks[i].uri
  {
    uris := [];
    for i := 0 to |tracks|
      invariant |uris| == i
      invariant forall j :: 0 <= j < i ==> uris[j] == tracks[j].uri
    {
      uris := uris + [tracks[i].uri];
    }
  }

  /** One run, given the weather reply and the catalog's answers. */
  method RunOnce(city: string, weather: Option<Weather>, mode: Mode, trackLimit: nat,
                 makePlaylist: bool, catalog: Catalog)
    returns (outcome: Outcome)
    ensures outcome == WeatherNotFound <==> !WeatherFound(weather)
    ensures outcome == MalformedWeather <==> WeatherFound(weather) && !Displayable(weather.value)
    ensures outcome == NoResults <==>
              WeatherFound(weather) && Displayable(weather.value) &&
              Recommendation(weather.value, mode, trackLimit, catalog) == []
    ensures outcome.Shown? ==>
              WeatherFound(weather) && Displayable(weather.value) &&
              outcome.tracks == Recommendation(weather.value, mode, trackLimit, catalog) &&
              outcome.tracks != [] &&
              |outcome.uris| == |outcome.tracks| &&
              (forall i :: 0 <= i < |outcome.tracks| ==> outcome.uris[i] == outcome.tracks[i].uri) &&
              outcome.playlist == (if makePlaylist then Some(PlaylistRequest(city, outcome.uris)) else None)
  {
    if !WeatherFound(weather) {
      return WeatherNotFound;
    }
    var w := weather.value;
    if !Displayable(w) {
      return MalformedWeather;
    }
    var tracks: seq<Track>;
    match mode {
      case Basic =>
        tracks := GenerateBasic(w, trackLimit, catalog);
      case Tempo(minBpm) =>
        tracks := GenerateTempo(w, minBpm, trackLimit, catalog);
      case Custom(u) =>
        tracks := GenerateCustom(w, u, trackLimit, catalog);
    }
    if tracks == [] {
      return NoResults;
    }
    var uris := CollectUris(tracks);
    var playlist := if makePlaylist then Some(PlaylistRequest(city, uris)) else None;
    outcome := Shown(tracks, uris, playlist);
  }
}
