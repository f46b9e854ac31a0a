/** The three recommendation modes: each derives the mood keyword from the
    weather, builds one catalog query from it and, in Tempo mode, filters
    the oversampled result by tempo. */
module Recommend {
  import opened Types
  import opened Mood
  import opened TempoFilter

  /** Tempo mode asks the catalog for this many times the track limit. */
  const Oversampling: nat := 3

  /** Basic mode: the mood keyword alone, up to the track limit. */
  function BasicQuery(kw: string, trackLimit: nat): (q: Query)
    ensures q.text == kw
    ensures q.limit == trackLimit
  {
    Query(kw, trackLimit)
  }

  /** Tempo mode: the keyword followed by fixed dance terms, asking for
      three times the track limit. */
  function TempoQuery(kw: string, trackLimit: nat): (q: Query)
    ensures kw <= q.text
    ensures q.text[|kw|..] == " upbeat dance"
    ensures q.limit == 3 * trackLimit
  {
    Query(kw + " upbeat dance", trackLimit * Oversampling)
  }

  /** Custom mode: the keyword, one space and the user's words, up to the
      track limit. */
  function CustomQuery(kw: string, userKeyword: string, trackLimit: nat): (q: Query)
    ensures kw <= q.text
    ensures |q.text| == |kw| + 1 + |userKeyword|
    ensures q.text[|kw|] == ' '
    ensures q.limit == trackLimit
  {
    Query(kw + " " + userKeyword, trackLimit)
  }

  /** The user's words can be read back from a Custom query: they are what
      follows the mood keyword and one space. */
  lemma CustomQueryRecoversKeyword(kw: string, userKeyword: string, trackLimit: nat)
    ensures CustomQuery(kw, userKeyword, trackLimit).text[|kw| + 1..] == userKeyword
    ensures CustomQuery(kw, userKeyword, trackLimit).text[..|kw|] == kw
  {
  }

  /** The track ids of a pool, in order: the features request. */
  function Ids(pool: seq<Track>): (ids: seq<string>)
    ensures |ids| == |pool|
    ensures forall i :: 0 <= i < |pool| ==> ids[i] == pool[i].id
  {
    seq(|pool|, i requires 0 <= i < |pool| => pool[i].id)
  }

  /** The catalog never returns more results than a query asks for. */
  ghost predicate HonoursLimit(catalog: Catalog)
  {
    forall q: Query :: q.limit >= 0 ==> |catalog.search(q)| <= q.limit
  }

  /** Basic mode: the catalog's answer to the weather's keyword; within the
      track limit only if the catalog honours it, since nothing cuts it. */
  function GenerateBasic(w: Weather, trackLimit: nat, catalog: Catalog): (r: seq<Track>)
    requires |w.conditions| > 0
    ensures r == catalog.search(Query(KeywordFor(w.conditions[0].main), trackLimit))
    ensures HonoursLimit(catalog) ==> |r| <= trackLimit
  {
    catalog.search(BasicQuery(WeatherToKeyword(w), trackLimit))
  }

  /** Custom mode: the catalog's answer to the keyword and the user's words;
      within the track limit only if the catalog honours it. */
  function GenerateCustom(w: Weather, userKeyword: string, trackLimit: nat, catalog: Catalog): (r: seq<Track>)
    requires |w.conditions| > 0
    ensures r == catalog.search(Query(KeywordFor(w.conditions[0].main) + " " + userKeyword, trackLimit))
    ensures HonoursLimit(catalog) ==> |r| <= trackLimit
  {
    catalog.search(CustomQuery(WeatherToKeyword(w), userKeyword, trackLimit))
  }

  /** The candidate pool Tempo mode filters: the catalog's answer to the
      weather's keyword with the dance terms, at three times the limit. */
  function TempoPool(w: Weather, trackLimit: nat, catalog: Catalog): (pool: seq<Track>)
    requires |w.conditions| > 0
    ensures pool == catalog.search(Query(KeywordFor(w.conditions[0].main) + " upbeat dance", 3 * trackLimit))
  {
    catalog.search(TempoQuery(WeatherToKeyword(w), trackLimit))
  }

  /** What Tempo mode recommends: at most the track limit, in order from
      the oversampled pool, and empty only when the pool is empty (or the
      limit is 0), so over-filtering alone never empties a run. */
  function TempoRecommendation(w: Weather, minBpm: int, trackLimit: nat, catalog: Catalog): (r: seq<Track>)
    requires |w.conditions| > 0
    ensures |r| <= trackLimit
    ensures SubseqOf(r, TempoPool(w, trackLimit, catalog))
    ensures r == [] <==> TempoPool(w, trackLimit, catalog) == [] || trackLimit == 0
  {
    var pool := TempoPool(w, trackLimit, catalog);
    TempoPickSubseq(pool, catalog.features(Ids(pool)), minBpm, trackLimit);
    TempoPick(pool, catalog.features(Ids(pool)), minBpm, trackLimit)
  }

  /** Tempo mode as `generate_tempo` runs it: search the oversampled pool,
      fetch the features of its ids in one request, filter. */
  method GenerateTempo(w: Weather, minBpm: int, trackLimit: nat, catalog: Catalog)
    returns (tracks: seq<Track>)
    requires |w.conditions| > 0
    ensures tracks == TempoRecommendation(w, minBpm, trackLimit, catalog)
    ensures |tracks| <= trackLimit
    ensures SubseqOf(tracks, TempoPool(w, trackLimit, catalog))
  {
    var kw := WeatherToKeyword(w);
    var pool := catalog.search(TempoQuery(kw, trackLimit));
    var ids := Ids(pool);
    var feats := catalog.features(ids);
    tracks := FilterByTempo(pool, feats, minBpm, trackLimit);
  }

  /** What a run recommends in each mode: never more than the track limit
      in Tempo mode, and in the other modes whenever the catalog honours
      the limit it is given. */
  function Recommendation(w: Weather, mode: Mode, trackLimit: nat, catalog: Catalog): (r: seq<Track>)
    requires |w.conditions| > 0
    ensures mode.Tempo? || HonoursLimit(catalog) ==> |r| <= trackLimit
    ensures mode.Tempo? ==> SubseqOf(r, TempoPool(w, trackLimit, catalog))
  {
    match mode
    case Basic => GenerateBasic(w, trackLimit, catalog)
    case Tempo(minBpm) => TempoRecommendation(w, minBpm, trackLimit, catalog)
    case Custom(u) => GenerateCustom(w, u, trackLimit, catalog)
  }

  /** A clear sky in Basic mode searches for the bright pop keyword alone. */
  lemma ClearBasicScenario(w: Weather, trackLimit: nat, catalog: Catalog)
    requires |w.conditions| > 0 && w.conditions[0].main == "Clear"
    ensures GenerateBasic(w, trackLimit, catalog) == catalog.search(Query("happy pop bright", trackLimit))
  {
    ServiceCategories();
  }

  /** Rain in Custom mode with the word "summer" searches the rainy keyword
      followed by the user's word. */
  lemma RainCustomScenario(w: Weather, trackLimit: nat, catalog: Catalog)
    requires |w.conditions| > 0 && w.conditions[0].main == "Rain"
    ensures GenerateCustom(w, "summer", trackLimit, catalog)
            == catalog.search(Query("lofi rainy chill summer", trackLimit))
  {
    ServiceCategories();
    assert "lofi rainy chill" + " " + "summer" == "lofi rainy chill summer";
  }
}
